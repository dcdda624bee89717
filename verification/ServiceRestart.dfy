// The restart budget of the service supervisor (config/service_restart.py).

module ServiceRestart {
  import opened Wrappers

  const STABLE_SECONDS := 60.0

  const MAX_RESTARTS := 3

  datatype Budget = Budget(failures: nat, readySince: Option<real>)

  datatype Event = Observe(ready: bool, now: real) | Ended(now: real) | Failed(now: real)

  function Observed(b: Budget, ready: bool, now: real): Budget {
    if !ready then b.(readySince := None)
    else if b.readySince.None? then b.(readySince := Some(now))
    else if now - b.readySince.value >= STABLE_SECONDS then b.(failures := 0)
    else b
  }

  // Another restart, with its delay, while the budget lasts.
  function AfterFailure(b: Budget): (Budget, Option<nat>) {
    if b.failures >= MAX_RESTARTS then (b.(readySince := None), None)
    else (Budget(b.failures + 1, None), Some(Doubled(b.failures)))
  }

  function Doubled(n: nat): nat {
    if n == 0 then 1 else 2 * Doubled(n - 1)
  }

  function Next(b: Budget, e: Event): Budget {
    match e
    case Observe(ready, now) => Observed(b, ready, now)
    case Ended(_) => b.(readySince := None)
    case Failed(_) => AfterFailure(b).0
  }

  const FRESH := Budget(0, None)

  function After(events: seq<Event>): Budget {
    if events == [] then FRESH else Next(After(events[..|events| - 1]), events[|events| - 1])
  }

  // The restarts granted along a trace.
  function Grants(events: seq<Event>): nat {
    if events == [] then 0
    else
      var (init, last) := (events[..|events| - 1], events[|events| - 1]);
      Grants(init) + if last.Failed? && AfterFailure(After(init)).1.Some? then 1 else 0
  }

  ghost predicate InOrder(events: seq<Event>) {
    forall i, j | 0 <= i < j < |events| :: events[i].now <= events[j].now
  }

  // ----- The object

  class RestartBudget {
    var failures: nat
    var readySince: Option<real>

    ghost function View(): Budget
      reads this
    {
      Budget(failures, readySince)
    }

    constructor ()
      ensures View() == FRESH
    {
      failures, readySince := 0, None;
    }

    method Observe(ready: bool, now: real)
      modifies this
      ensures View() == Observed(old(View()), ready, now)
    {
      if !ready {
        readySince := None;
      } else if readySince.None? {
        readySince := Some(now);
      } else if now - readySince.value >= STABLE_SECONDS {
        failures := 0;
      }
    }

    method Ended()
      modifies this`readySince
      ensures View() == old(View()).(readySince := None)
    {
      readySince := None;
    }

    method Failed() returns (delay: Option<nat>)
      modifies this
      ensures (View(), delay) == AfterFailure(old(View()))
    {
      readySince := None;
      if failures >= MAX_RESTARTS {
        return None;
      }
      failures := failures + 1;
      var d, k := 1, 1;
      while k < failures
        invariant 1 <= k <= failures && d == Doubled(k - 1)
      {
        d, k := 2 * d, k + 1;
      }
      delay := Some(d);
    }
  }

  // ----- How many restarts a trace can grant

  // `resets` clearings so far, each paid for with a minute of readiness before
  // `paid`; what is granted is covered by them and the open failures.
  ghost predicate Accounted(b: Budget, grants: nat, resets: nat, start: real, paid: real, now: real) {
    && b.failures <= MAX_RESTARTS
    && grants <= MAX_RESTARTS * resets + b.failures
    && resets as real * STABLE_SECONDS <= paid - start && paid <= now
    && (b.failures > 0 && b.readySince.Some? ==> b.readySince.value >= paid)
  }

  lemma {:induction false} TraceIsAccounted(events: seq<Event>) returns (resets: nat, paid: real)
    requires events != [] && InOrder(events)
    ensures Accounted(After(events), Grants(events), resets, events[0].now, paid, events[|events| - 1].now)
  {
    var init, last := events[..|events| - 1], events[|events| - 1];
    resets, paid := 0, events[0].now;
    if init != [] {
      resets, paid := TraceIsAccounted(init);
    }
    var before := After(init);
    assert last.now >= paid;
    if before.failures > 0 && After(events).failures == 0 {
      resets, paid := resets + 1, last.now;
    }
  }

  // Over any trace that spans T seconds at most 3 * (1 + floor(T / 60)) restarts are granted.
  lemma RestartsAreBounded(events: seq<Event>)
    requires events != [] && InOrder(events)
    ensures var span := events[|events| - 1].now - events[0].now;
            Grants(events) <= MAX_RESTARTS * (1 + (span / STABLE_SECONDS).Floor)
  {
    var resets, paid := TraceIsAccounted(events);
    var span := events[|events| - 1].now - events[0].now;
    assert resets as real <= span / STABLE_SECONDS;
    assert resets <= (span / STABLE_SECONDS).Floor;
  }

  // Every granted delay is 1, 2 or 4 seconds, doubling from failure to failure.
  lemma {:induction false} DelaysAreBounded(events: seq<Event>)
    ensures After(events).failures <= MAX_RESTARTS
    ensures var (b, delay) := AfterFailure(After(events));
            delay.Some? ==> delay.value == [1, 2, 4][b.failures - 1]
  {
    if events != [] {
      DelaysAreBounded(events[..|events| - 1]);
    }
    assert Doubled(2) == 2 * Doubled(1) == 4 * Doubled(0);
  }

  // ----- When failures are cleared

  // From event j on, the trace only observes readiness.
  ghost predicate ReadyFrom(events: seq<Event>, j: nat) {
    j < |events| && forall k | j <= k < |events| :: events[k].Observe? && events[k].ready
  }

  lemma {:induction false} ReadySinceBegan(events: seq<Event>) returns (j: nat)
    requires After(events).readySince.Some?
    ensures ReadyFrom(events, j) && events[j].now == After(events).readySince.value
  {
    var init := events[..|events| - 1];
    if After(init).readySince.Some? {
      j := ReadySinceBegan(init);
    } else {
      j := |events| - 1;
    }
  }

  lemma {:induction false} ReadySinceHolds(events: seq<Event>, j: nat)
    requires InOrder(events) && ReadyFrom(events, j)
    ensures After(events).readySince.Some? && After(events).readySince.value <= events[j].now
  {
    var init := events[..|events| - 1];
    assert events[|events| - 1].Observe? && events[|events| - 1].ready;
    if j < |init| {
      ReadySinceHolds(init, j);
    } else if After(init).readySince.Some? {
      var i := ReadySinceBegan(init);
      assert events[i].now <= events[j].now;
    }
  }

  // From event j on only readiness is observed, for a minute or more.
  ghost predicate StableFrom(events: seq<Event>, j: nat) {
    && ReadyFrom(events, j) && j < |events| - 1
    && events[|events| - 1].now - events[j].now >= STABLE_SECONDS
  }

  lemma ClearedByStability(events: seq<Event>) returns (j: nat)
    requires events != [] && InOrder(events)
    requires After(events[..|events| - 1]).failures > 0 && After(events).failures == 0
    ensures StableFrom(events, j)
  {
    j := ReadySinceBegan(events[..|events| - 1]);
  }

  lemma StabilityClears(events: seq<Event>, j: nat)
    requires InOrder(events) && StableFrom(events, j)
    ensures After(events).failures == 0
  {
    ReadySinceHolds(events[..|events| - 1], j);
  }

  // Open failures are cleared by an event exactly when it ends an unbroken run
  // of ready observations that spans a minute, so that began after the last failure.
  lemma FailuresClearExactlyWhen(events: seq<Event>)
    requires events != [] && InOrder(events) && After(events[..|events| - 1]).failures > 0
    ensures After(events).failures == 0 <==> exists j: nat :: StableFrom(events, j)
  {
    if After(events).failures == 0 {
      var j := ClearedByStability(events);
    }
    if j: nat :| StableFrom(events, j) {
      StabilityClears(events, j);
    }
  }

  // ----- Which failures are granted a restart

  function CountFailed(events: seq<Event>): nat {
    if events == [] then 0
    else CountFailed(events[..|events| - 1]) + if events[|events| - 1].Failed? then 1 else 0
  }

  ghost predicate EndsStable(events: seq<Event>) {
    exists j: nat :: StableFrom(events, j)
  }

  // Nothing after the first c events has been stable for a minute.
  ghost predicate UnstableSince(events: seq<Event>, c: nat) {
    forall k: nat | c < k <= |events| :: !EndsStable(events[..k])
  }

  function Capped(n: nat): nat {
    if n < 3 then n else 3
  }

  // An event that ends no stable minute counts when it is a failure.
  lemma FailuresStep(events: seq<Event>, n: nat)
    requires events != [] && InOrder(events) && !EndsStable(events)
    requires After(events[..|events| - 1]).failures == Capped(n)
    ensures After(events).failures == Capped(n + if events[|events| - 1].Failed? then 1 else 0)
  {
    if Capped(n) > 0 {
      FailuresClearExactlyWhen(events);
    }
  }

  lemma StableHasNone(events: seq<Event>)
    requires InOrder(events) && EndsStable(events)
    ensures After(events).failures == 0
  {
    var j: nat :| StableFrom(events, j);
    StabilityClears(events, j);
  }

  lemma {:induction false} FailuresSince(events: seq<Event>, c: nat)
    requires InOrder(events) && c <= |events| && UnstableSince(events, c)
    requires c == 0 || EndsStable(events[..c])
    ensures After(events).failures == Capped(CountFailed(events[c..]))
    decreases |events| - c
  {
    assert events[..|events|] == events;
    if c == |events| {
      if c > 0 {
        StableHasNone(events);
      }
    } else {
      var init := events[..|events| - 1];
      assert forall k: nat | k <= |init| :: init[..k] == events[..k];
      FailuresSince(init, c);
      assert events[c..][..|events| - 1 - c] == init[c..];
      FailuresStep(events, CountFailed(init[c..]));
    }
  }

  // A failure is granted a restart if and only if fewer than three failures came
  // since the last stable minute, or since the start.
  lemma RestartGrantedExactlyWhen(events: seq<Event>, c: nat)
    requires InOrder(events) && c <= |events| && UnstableSince(events, c)
    requires c == 0 || EndsStable(events[..c])
    ensures AfterFailure(After(events)).1.Some? <==> CountFailed(events[c..]) < 3
  {
    FailuresSince(events, c);
  }
}
