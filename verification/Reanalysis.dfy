// The durable queue of session reanalysis requests (app/analysis/reanalysis.py):
// requests merge into one row per session, workers process a snapshot of the
// rows and delete a row only while it still holds the text they read.

module Reanalysis {
  import opened Wrappers

  datatype Flags = Flags(retranscribe: bool, retryRefinement: bool) {
    predicate Includes(other: Flags) {
      (other.retranscribe ==> retranscribe) && (other.retryRefinement ==> retryRefinement)
    }

    function Join(other: Flags): Flags {
      Flags(retranscribe || other.retranscribe, retryRefinement || other.retryRefinement)
    }
  }

  // The stored text: a well-formed request, or anything that does not decode.
  datatype Payload = Request(session: nat, reason: string, flags: Flags, stamp: nat) | Undecodable(text: string)

  const NO_FLAGS := Flags(false, false)

  function DecodedFlags(stored: Option<Payload>): Flags {
    if stored.Some? && stored.value.Request? then stored.value.flags else NO_FLAGS
  }

  // The session a stored row asks for; None when its text does not fit its key.
  function SessionOf(key: nat, p: Payload): Option<nat> {
    if p.Request? && p.session == key then Some(key) else None
  }

  // ----- A request

  // What the transaction of a request reads of its session.
  datatype Session = Session(exists_: bool, hasSegments: bool, hasTasks: bool, autoAnalyze: bool)

  datatype Answer = Registered | Declined | Invalid

  function Stored(rows: map<nat, Payload>, key: nat): Option<Payload> {
    if key in rows then Some(rows[key]) else None
  }

  function Answered(s: Session, reason: string, isExplicit: bool): Answer {
    if reason == "" || !s.exists_ then Invalid
    else if !s.hasSegments || (!isExplicit && !s.hasTasks && !s.autoAnalyze) then Declined
    else Registered
  }

  const REASON_LIMIT := 200

  function Shortened(reason: string): string {
    if |reason| > REASON_LIMIT then reason[..REASON_LIMIT] else reason
  }

  // The row written by an accepted request: its own flags joined to the ones still waiting.
  function Merged(rows: map<nat, Payload>, key: nat, reason: string, asked: Flags, stamp: nat): Payload {
    Request(key, Shortened(reason), asked.Join(DecodedFlags(Stored(rows, key))), stamp)
  }

  // ----- The world

  // A row as a worker read it, when `asOf` requests had been accepted.
  datatype Entry = Entry(key: nat, read: Payload, asOf: nat)

  // Why a worker deletes a row: its run completed, its run found no segments, or
  // the row does not decode.
  datatype Handling = Completed | Segmentless | Unreadable

  // A worker goes through its snapshot; `Deleting` is the gap between a run and
  // the deletion of the row it answered.
  datatype Worker =
    | Working(pending: seq<Entry>)
    | Deleting(entry: Entry, handling: Handling, pending: seq<Entry>)

  datatype Log = Log(entry: Entry, handling: Handling)

  datatype World = World(
    rows: map<nat, Payload>,
    workers: map<nat, Worker>,
    accepted: seq<Payload>,  // the request of every accepted call, with the flags it asked for
    written: seq<Payload>,   // the row each of them wrote
    log: seq<Log>)

  // What a queue run reports: done, refused because tasks are active, refused
  // because the session is unsettled, no segments, or a storage failure.
  datatype QueueResult = Done | SkippedActive | Unsettled | NoSegments | StorageFailed

  datatype Event =
    | Ask(key: nat, reason: string, asked: Flags, isExplicit: bool, session: Session, stamp: nat)
    | Snapshot(worker: nat, keys: seq<nat>)
    | Process(worker: nat, result: QueueResult)
    | Delete(worker: nat)
    | Crash(worker: nat)

  function Asked(e: Event): Flags
    requires e.Ask?
  {
    Flags(e.asked.retranscribe, e.isExplicit)
  }

  function Read(rows: map<nat, Payload>, keys: seq<nat>, asOf: nat): seq<Entry> {
    if keys == [] then []
    else (if keys[0] in rows then [Entry(keys[0], rows[keys[0]], asOf)] else []) + Read(rows, keys[1..], asOf)
  }

  function DeletedIf(rows: map<nat, Payload>, key: nat, expected: Payload): map<nat, Payload> {
    if key in rows && rows[key] == expected then rows - {key} else rows
  }

  // What the result of a run means for the row; None leaves it in place.
  function HandlingOf(entry: Entry, result: QueueResult): Option<Handling> {
    if SessionOf(entry.key, entry.read).None? then Some(Unreadable)
    else match result
      case Done => Some(Completed)
      case NoSegments => Some(Segmentless)
      case _ => None
  }

  function Next(w: World, e: Event): World {
    match e
    case Ask(key, reason, asked, isExplicit, session, stamp) =>
      if !Answered(session, reason, isExplicit).Registered? then w
      else
        var p := Merged(w.rows, key, reason, Asked(e), stamp);
        w.(rows := w.rows[key := p],
           accepted := w.accepted + [Request(key, reason, Asked(e), stamp)],
           written := w.written + [p])
    case Snapshot(id, keys) =>
      w.(workers := w.workers[id := Working(Read(w.rows, keys, |w.accepted|))])
    case Process(id, result) =>
      if id in w.workers && w.workers[id].Working? && w.workers[id].pending != [] then
        var (entry, rest) := (w.workers[id].pending[0], w.workers[id].pending[1..]);
        var handling := HandlingOf(entry, result);
        if handling.None? then w.(workers := w.workers[id := Working(rest)])
        else w.(workers := w.workers[id := Deleting(entry, handling.value, rest)],
                log := w.log + [Log(entry, handling.value)])
      else w
    case Delete(id) =>
      if id in w.workers && w.workers[id].Deleting? then
        var Deleting(entry, _, pending) := w.workers[id];
        w.(rows := DeletedIf(w.rows, entry.key, entry.read), workers := w.workers[id := Working(pending)])
      else w
    case Crash(id) => w.(workers := w.workers - {id})
  }

  // ----- The rows, updated in place

  class ReanalysisTable {
    var rows: map<nat, Payload>

    method RequestReanalysis(key: nat, reason: string, retranscribe: bool, isExplicit: bool, session: Session, stamp: nat)
      returns (answer: Answer)
      modifies this
      ensures answer == Answered(session, reason, isExplicit)
      ensures answer.Invalid? <==> reason == "" || !session.exists_
      ensures answer.Registered? <==> reason != "" && session.exists_ && session.hasSegments
                                      && (isExplicit || session.hasTasks || session.autoAnalyze)
      ensures rows == if answer.Registered?
                      then old(rows)[key := Merged(old(rows), key, reason, Flags(retranscribe, isExplicit), stamp)]
                      else old(rows)
    {
      if reason == "" || !session.exists_ {
        return Invalid;
      }
      if !session.hasSegments {
        return Declined;
      }
      if !isExplicit && !session.hasTasks && !session.autoAnalyze {
        return Declined;
      }
      var previous := NO_FLAGS;
      if key in rows && rows[key].Request? {
        previous := rows[key].flags;
      }
      var flags := Flags(retranscribe || previous.retranscribe, isExplicit || previous.retryRefinement);
      rows := rows[key := Request(key, Shortened(reason), flags, stamp)];
      answer := Registered;
    }

    method DeletePending(key: nat, expected: Payload)
      modifies this
      ensures rows == DeletedIf(old(rows), key, expected)
    {
      if key in rows && rows[key] == expected {
        rows := rows - {key};
      }
    }

    // The requests that arrive meanwhile.
    method Arrive(asks: seq<Event>, ghost w: World) returns (ghost w': World)
      requires rows == w.rows && forall e <- asks :: e.Ask?
      modifies this
      ensures w' == Run(w, asks) && rows == w'.rows
      ensures w'.workers == w.workers && w'.log == w.log
    {
      w' := w;
      for k := 0 to |asks|
        invariant w' == Run(w, asks[..k]) && rows == w'.rows && w'.workers == w.workers && w'.log == w.log
      {
        var e := asks[k];
        assert e in asks;
        var _ := RequestReanalysis(e.key, e.reason, e.asked.retranscribe, e.isExplicit, e.session, e.stamp);
        w' := Next(w', e);
        RunNext(w, asks, k);
      }
      assert asks[..|asks|] == asks;
    }

    // One pass over the rows read: `results` is what the queue runs report, and
    // `arrivals` are the requests accepted before and after each of them. It
    // takes exactly the steps in `events` and reports the sessions it served.
    method ProcessPending(keys: seq<nat>, results: nat -> QueueResult, arrivals: nat -> seq<Event>)
      returns (completed: seq<nat>, ghost events: seq<Event>)
      requires forall k, e | e in arrivals(k) :: e.Ask?
      modifies this
      ensures rows == Run(Start(old(rows)), events).rows
      ensures completed == ServedKeys(Run(Start(old(rows)), events).log)
    {
      ghost var start := Start(rows);
      ghost var w := Next(start, Snapshot(0, keys));
      var pending := Read(rows, keys, 0);
      completed, events := [], [Snapshot(0, keys)];
      assert events[..0] == [];
      for k := 0 to |pending|
        invariant w == Run(start, events) && rows == w.rows
        invariant 0 in w.workers && w.workers[0] == Working(pending[k..])
        invariant completed == ServedKeys(w.log)
      {
        var entry := pending[k];
        w := Arrive(arrivals(2 * k), w);
        RunAppend(start, events, arrivals(2 * k));
        var handling := HandlingOf(entry, results(k));
        w := Next(w, Process(0, results(k)));
        RunAppend(start, events + arrivals(2 * k), [Process(0, results(k))]);
        events := events + arrivals(2 * k) + [Process(0, results(k))];
        if handling.Some? {
          w := Arrive(arrivals(2 * k + 1), w);
          RunAppend(start, events, arrivals(2 * k + 1));
          DeletePending(entry.key, entry.read);
          w := Next(w, Delete(0));
          RunAppend(start, events + arrivals(2 * k + 1), [Delete(0)]);
          events := events + arrivals(2 * k + 1) + [Delete(0)];
          if handling.value.Completed? {
            completed := completed + [entry.key];
          }
        }
      }
    }
  }

  // The sessions whose runs completed, in order.
  function ServedKeys(log: seq<Log>): seq<nat> {
    if log == [] then []
    else
      var last := log[|log| - 1];
      ServedKeys(log[..|log| - 1]) + if last.handling.Completed? then [last.entry.key] else []
  }

  // ----- No request is lost

  // The row was read after request i, and with the flags that request i asked for.
  ghost predicate Answers(w: World, i: nat, l: Log)
    requires i < |w.accepted| && w.accepted[i].Request?
  {
    && i < l.entry.asOf && l.entry.key == w.accepted[i].session
    && SessionOf(l.entry.key, l.entry.read).Some? && l.entry.read.flags.Includes(w.accepted[i].flags)
  }

  ghost predicate Waiting(w: World, i: nat)
    requires i < |w.accepted| && w.accepted[i].Request?
  {
    var key := w.accepted[i].session;
    key in w.rows && SessionOf(key, w.rows[key]).Some? && w.rows[key].flags.Includes(w.accepted[i].flags)
  }

  // Some worker that read the row with the request dealt with it.
  ghost predicate Handled(w: World, i: nat)
    requires i < |w.accepted| && w.accepted[i].Request?
  {
    exists k :: 0 <= k < |w.log| && Answers(w, i, w.log[k])
  }

  // A run that read the row with the request completed.
  ghost predicate Served(w: World, i: nat)
    requires i < |w.accepted| && w.accepted[i].Request?
  {
    exists k :: 0 <= k < |w.log| && Answers(w, i, w.log[k]) && w.log[k].handling.Completed?
  }

  // Every accepted request still waits in its row, or a run that read the row
  // after it completed with its flags.
  ghost predicate NotLost(w: World) {
    forall i | 0 <= i < |w.accepted| :: w.accepted[i].Request? && (Waiting(w, i) || Served(w, i))
  }

  // The same with the runs that found no segments.
  ghost predicate Accounted(w: World) {
    forall i | 0 <= i < |w.accepted| :: w.accepted[i].Request? && (Waiting(w, i) || Handled(w, i))
  }

  function HeldBy(worker: Worker): seq<Entry> {
    match worker
    case Working(pending) => pending
    case Deleting(entry, _, pending) => [entry] + pending
  }

  // Every accepted request wrote the row of its session.
  ghost predicate WritesOk(w: World) {
    && |w.accepted| == |w.written|
    && (forall i | 0 <= i < |w.accepted| :: w.accepted[i].Request?)
    && (forall i | 0 <= i < |w.accepted| && w.accepted[i].session in w.rows && LastOf(w, i) ::
          w.rows[w.accepted[i].session] == w.written[i])
  }

  ghost predicate LastOf(w: World, i: nat)
    requires i < |w.accepted| && forall j | 0 <= j < |w.accepted| :: w.accepted[j].Request?
  {
    forall j | i < j < |w.accepted| :: w.accepted[j].session != w.accepted[i].session
  }

  // No row written since an entry was read has the text of the entry.
  ghost predicate Unmistakable(w: World, entry: Entry)
    requires WritesOk(w)
  {
    && entry.asOf <= |w.accepted|
    && forall j | entry.asOf <= j < |w.accepted| && w.accepted[j].session == entry.key :: w.written[j] != entry.read
  }

  ghost predicate WorkersOk(w: World)
    requires WritesOk(w)
  {
    && (forall id <- w.workers :: forall i | 0 <= i < |HeldBy(w.workers[id])| :: Unmistakable(w, HeldBy(w.workers[id])[i]))
    && DeletionsLogged(w)
  }

  ghost predicate Logged(w: World, entry: Entry, handling: Handling) {
    Log(entry, handling) in w.log
  }

  ghost predicate DeletionsLogged(w: World) {
    forall id <- w.workers | w.workers[id].Deleting? :: Logged(w, w.workers[id].entry, w.workers[id].handling)
  }

  ghost predicate Inv(w: World) {
    WritesOk(w) && WorkersOk(w) && Accounted(w)
  }

  // The text that an accepted request writes is not one that a worker holds;
  // distinct stamps give this.
  ghost predicate FreshText(w: World, e: Event) {
    e.Ask? ==>
      forall id <- w.workers :: forall i | 0 <= i < |HeldBy(w.workers[id])| ::
        HeldBy(w.workers[id])[i].read != Merged(w.rows, e.key, e.reason, Asked(e), e.stamp)
  }

  // ----- Each step

  lemma AskKeepsWrites(w: World, e: Event)
    requires WritesOk(w) && e.Ask? && Answered(e.session, e.reason, e.isExplicit).Registered?
    ensures WritesOk(Next(w, e))
  {
    var w' := Next(w, e);
    forall i | 0 <= i < |w'.accepted| && w'.accepted[i].session in w'.rows && LastOf(w', i)
      ensures w'.rows[w'.accepted[i].session] == w'.written[i]
    {
      if i < |w.accepted| {
        assert w'.accepted[|w.accepted|].session != w'.accepted[i].session;
        assert forall j | 0 <= j < |w.accepted| :: w'.accepted[j] == w.accepted[j];
        assert LastOf(w, i);
      }
    }
  }

  // The new request waits, and so does everything that waited.
  lemma AskKeepsWaiting(w: World, e: Event, i: nat)
    requires WritesOk(w) && e.Ask? && Answered(e.session, e.reason, e.isExplicit).Registered?
    requires i <= |w.accepted| && (i < |w.accepted| ==> Waiting(w, i))
    ensures var w' := Next(w, e); i < |w'.accepted| && w'.accepted[i].Request? && Waiting(w', i)
  {
  }

  // What a log says of an old request stays said.
  lemma LogStays(w: World, w': World, i: nat)
    requires WritesOk(w) && WritesOk(w') && i < |w.accepted|
    requires w.log <= w'.log && w.accepted <= w'.accepted
    ensures (Handled(w, i) ==> Handled(w', i)) && (Served(w, i) ==> Served(w', i))
  {
    if Handled(w, i) {
      var k :| 0 <= k < |w.log| && Answers(w, i, w.log[k]);
      assert Answers(w', i, w'.log[k]);
    }
    if Served(w, i) {
      var k :| 0 <= k < |w.log| && Answers(w, i, w.log[k]) && w.log[k].handling.Completed?;
      assert Answers(w', i, w'.log[k]);
    }
  }

  lemma AskKeepsRequests(w: World, e: Event)
    requires WritesOk(w) && e.Ask? && Answered(e.session, e.reason, e.isExplicit).Registered?
    ensures WritesOk(Next(w, e))
    ensures Accounted(w) ==> Accounted(Next(w, e))
    ensures NotLost(w) ==> NotLost(Next(w, e))
  {
    var w' := Next(w, e);
    AskKeepsWrites(w, e);
    forall i | 0 <= i < |w'.accepted|
      ensures Accounted(w) ==> Waiting(w', i) || Handled(w', i)
      ensures NotLost(w) ==> Waiting(w', i) || Served(w', i)
    {
      if i == |w.accepted| || Waiting(w, i) {
        AskKeepsWaiting(w, e, i);
      } else {
        LogStays(w, w', i);
      }
    }
  }

  // Steps that touch one worker, or remove it, and may append to the log.
  lemma WorkerStep(w: World, w': World, id: nat)
    requires Inv(w) && w'.rows == w.rows && w'.accepted == w.accepted && w'.written == w.written
    requires w.log <= w'.log
    requires forall x | x in w'.workers && x != id :: x in w.workers && w'.workers[x] == w.workers[x]
    requires id in w'.workers ==>
               && (forall i | 0 <= i < |HeldBy(w'.workers[id])| :: Unmistakable(w, HeldBy(w'.workers[id])[i]))
               && (w'.workers[id].Deleting? ==> Logged(w', w'.workers[id].entry, w'.workers[id].handling))
    ensures Inv(w')
  {
    forall i | 0 <= i < |w'.accepted| ensures Waiting(w', i) || Handled(w', i) {
      if !Waiting(w, i) {
        var k :| 0 <= k < |w.log| && Answers(w, i, w.log[k]);
        assert Answers(w', i, w'.log[k]);
      }
    }
    forall i | 0 <= i < |w'.accepted| && w'.accepted[i].session in w'.rows && LastOf(w', i)
      ensures w'.rows[w'.accepted[i].session] == w'.written[i]
    {
      assert LastOf(w, i);
    }
    forall x <- w'.workers
      ensures forall i | 0 <= i < |HeldBy(w'.workers[x])| :: Unmistakable(w', HeldBy(w'.workers[x])[i])
    {
      forall i | 0 <= i < |HeldBy(w'.workers[x])| ensures Unmistakable(w', HeldBy(w'.workers[x])[i]) {
        assert Unmistakable(w, HeldBy(w'.workers[x])[i]);
      }
    }
    forall x <- w'.workers | w'.workers[x].Deleting? ensures Logged(w', w'.workers[x].entry, w'.workers[x].handling) {
      if x != id {
        assert Logged(w, w.workers[x].entry, w.workers[x].handling);
      }
    }
  }

  lemma {:induction false} ReadIsFresh(rows: map<nat, Payload>, keys: seq<nat>, asOf: nat)
    ensures forall i | 0 <= i < |Read(rows, keys, asOf)| :: Read(rows, keys, asOf)[i].asOf == asOf
  {
    if keys != [] {
      ReadIsFresh(rows, keys[1..], asOf);
    }
  }

  // The last accepted request of a session.
  lemma LastRequest(w: World, i: nat) returns (j: nat)
    requires WritesOk(w) && i < |w.accepted|
    ensures i <= j < |w.accepted| && w.accepted[j].session == w.accepted[i].session && LastOf(w, j)
  {
    j := i;
    for k := i + 1 to |w.accepted|
      invariant i <= j < k && w.accepted[j].session == w.accepted[i].session
      invariant forall x | j < x < k :: w.accepted[x].session != w.accepted[i].session
    {
      if w.accepted[k].session == w.accepted[i].session {
        j := k;
      }
    }
  }

  // Deleting by value takes away only what the logged run has answered.
  lemma DeletedRequestIsHandled(w: World, entry: Entry, handling: Handling, i: nat)
    requires Inv(w) && Unmistakable(w, entry) && Logged(w, entry, handling)
    requires i < |w.accepted| && w.accepted[i].session == entry.key && Waiting(w, i)
    requires w.rows[entry.key] == entry.read
    ensures Handled(w, i) && (handling.Completed? ==> Served(w, i))
  {
    var j := LastRequest(w, i);
    assert w.written[j] == entry.read;
    assert j < entry.asOf;
    var k :| 0 <= k < |w.log| && w.log[k] == Log(entry, handling);
    assert Answers(w, i, w.log[k]);
  }

  lemma DeleteKeeps(w: World, id: nat)
    requires Inv(w) && id in w.workers && w.workers[id].Deleting?
    ensures Inv(Next(w, Delete(id)))
  {
    var w' := Next(w, Delete(id));
    var entry := w.workers[id].entry;
    assert HeldBy(w.workers[id])[0] == entry;
    forall i | 0 <= i < |w'.accepted| ensures Waiting(w', i) || Handled(w', i) {
      if !Waiting(w', i) {
        if Waiting(w, i) {
          DeletedRequestIsHandled(w, entry, w.workers[id].handling, i);
        }
        var k :| 0 <= k < |w.log| && Answers(w, i, w.log[k]);
        assert Answers(w', i, w'.log[k]);
      }
    }
    forall i | 0 <= i < |w'.accepted| && w'.accepted[i].session in w'.rows && LastOf(w', i)
      ensures w'.rows[w'.accepted[i].session] == w'.written[i]
    {
      assert LastOf(w, i);
    }
    forall x <- w'.workers
      ensures forall i | 0 <= i < |HeldBy(w'.workers[x])| :: Unmistakable(w', HeldBy(w'.workers[x])[i])
    {
      forall i | 0 <= i < |HeldBy(w'.workers[x])| ensures Unmistakable(w', HeldBy(w'.workers[x])[i]) {
        var shift := if x == id then 1 else 0;
        assert HeldBy(w'.workers[x])[i] == HeldBy(w.workers[x])[i + shift];
      }
    }
    forall x <- w'.workers | w'.workers[x].Deleting? ensures Logged(w', w'.workers[x].entry, w'.workers[x].handling) {
      assert Logged(w, w.workers[x].entry, w.workers[x].handling);
    }
  }

  lemma ProcessKeeps(w: World, e: Event)
    requires Inv(w) && e.Process?
    ensures Inv(Next(w, e))
  {
    var w' := Next(w, e);
    if w' != w {
      var worker := w.workers[e.worker];
      var entry := worker.pending[0];
      if w'.workers[e.worker].Deleting? {
        assert w'.log[|w.log|] == Log(entry, w'.workers[e.worker].handling);
      }
      forall i | 0 <= i < |HeldBy(w'.workers[e.worker])|
        ensures Unmistakable(w, HeldBy(w'.workers[e.worker])[i])
      {
        var shift := if w'.workers[e.worker].Deleting? then 0 else 1;
        assert HeldBy(w'.workers[e.worker])[i] == HeldBy(worker)[i + shift];
      }
      WorkerStep(w, w', e.worker);
    }
  }

  lemma NextKeeps(w: World, e: Event)
    requires Inv(w) && FreshText(w, e)
    ensures Inv(Next(w, e))
  {
    match e
    case Ask(_, _, _, _, _, _) =>
      if Answered(e.session, e.reason, e.isExplicit).Registered? {
        AskKeepsRequests(w, e);
      }
    case Snapshot(id, keys) =>
      ReadIsFresh(w.rows, keys, |w.accepted|);
      WorkerStep(w, Next(w, e), id);
    case Process(_, _) => ProcessKeeps(w, e);
    case Delete(id) =>
      if id in w.workers && w.workers[id].Deleting? {
        DeleteKeeps(w, id);
      }
    case Crash(id) => WorkerStep(w, Next(w, e), id);
  }

  // ----- Whole runs, from any table that nobody has read yet

  function Start(rows: map<nat, Payload>): World {
    World(rows, map[], [], [], [])
  }

  function Run(w: World, events: seq<Event>): World {
    if events == [] then w else Next(Run(w, events[..|events| - 1]), events[|events| - 1])
  }

  lemma RunNext(w: World, events: seq<Event>, k: nat)
    requires k < |events|
    ensures Run(w, events[..k + 1]) == Next(Run(w, events[..k]), events[k])
  {
    assert events[..k + 1][..k] == events[..k];
  }

  lemma {:induction false} RunAppend(w: World, a: seq<Event>, b: seq<Event>)
    ensures Run(w, a + b) == Run(Run(w, a), b)
  {
    if b == [] {
      assert a + b == a;
    } else {
      RunAppend(w, a, b[..|b| - 1]);
      assert (a + b)[..|a + b| - 1] == a + b[..|b| - 1];
    }
  }

  ghost predicate AllFresh(w: World, events: seq<Event>) {
    forall k | 0 <= k < |events| :: FreshText(Run(w, events[..k]), events[k])
  }

  lemma {:induction false} RunKeeps(w: World, events: seq<Event>)
    requires Inv(w) && AllFresh(w, events)
    ensures Inv(Run(w, events))
  {
    if events != [] {
      var init := events[..|events| - 1];
      forall k | 0 <= k < |init| ensures FreshText(Run(w, init[..k]), init[k]) {
        assert init[..k] == events[..k];
      }
      RunKeeps(w, init);
      NextKeeps(Run(w, init), events[|events| - 1]);
    }
  }

  // Every readable row in the table or held by a worker has one of these stamps.
  ghost predicate Stamped(w: World, stamps: set<nat>) {
    && (forall key <- w.rows :: w.rows[key].Request? ==> w.rows[key].stamp in stamps)
    && (forall id <- w.workers :: AllStamped(HeldBy(w.workers[id]), stamps))
  }

  ghost predicate AllStamped(entries: seq<Entry>, stamps: set<nat>) {
    forall i | 0 <= i < |entries| :: entries[i].read.Request? ==> entries[i].read.stamp in stamps
  }

  lemma {:induction false} ReadIsStamped(rows: map<nat, Payload>, keys: seq<nat>, asOf: nat, stamps: set<nat>)
    requires forall key <- rows :: rows[key].Request? ==> rows[key].stamp in stamps
    ensures AllStamped(Read(rows, keys, asOf), stamps)
  {
    if keys != [] {
      ReadIsStamped(rows, keys[1..], asOf, stamps);
    }
  }

  // A step leaves what a worker holds or takes its first entry away.
  lemma HeldNext(w: World, e: Event, id: nat)
    requires id in Next(w, e).workers && !(e.Snapshot? && e.worker == id)
    ensures id in w.workers
    ensures var (held, held') := (HeldBy(w.workers[id]), HeldBy(Next(w, e).workers[id]));
            held' == held || (held != [] && held' == held[1..])
  {
  }

  lemma NextIsStamped(w: World, e: Event, stamps: set<nat>)
    requires Stamped(w, stamps)
    ensures Stamped(Next(w, e), stamps + StampOf(e))
  {
    var w' := Next(w, e);
    forall id <- w'.workers ensures AllStamped(HeldBy(w'.workers[id]), stamps + StampOf(e)) {
      if e.Snapshot? && e.worker == id {
        ReadIsStamped(w.rows, e.keys, |w.accepted|, stamps);
      } else {
        HeldNext(w, e, id);
        assert AllStamped(HeldBy(w.workers[id]), stamps);
      }
    }
  }

  function StampOf(e: Event): set<nat> {
    if e.Ask? then {e.stamp} else {}
  }

  function StampsOf(events: seq<Event>): set<nat> {
    set k | 0 <= k < |events| && events[k].Ask? :: events[k].stamp
  }

  function StampsIn(rows: map<nat, Payload>): set<nat> {
    set key | key in rows && rows[key].Request? :: rows[key].stamp
  }

  lemma {:induction false} RunIsStamped(rows: map<nat, Payload>, events: seq<Event>)
    ensures Stamped(Run(Start(rows), events), StampsIn(rows) + StampsOf(events))
  {
    if events != [] {
      var (init, last) := (events[..|events| - 1], events[|events| - 1]);
      RunIsStamped(rows, init);
      NextIsStamped(Run(Start(rows), init), last, StampsIn(rows) + StampsOf(init));
      assert StampsOf(events) == StampsOf(init) + StampOf(last);
    }
  }

  // No two requests carry the same stamp, nor that of a row stored before.
  ghost predicate DistinctStamps(rows: map<nat, Payload>, events: seq<Event>) {
    forall k | 0 <= k < |events| && events[k].Ask? ::
      events[k].stamp !in StampsIn(rows) && events[k].stamp !in StampsOf(events[..k])
  }

  lemma DistinctStampsAreFresh(rows: map<nat, Payload>, events: seq<Event>)
    requires DistinctStamps(rows, events)
    ensures AllFresh(Start(rows), events)
  {
    forall k | 0 <= k < |events| ensures FreshText(Run(Start(rows), events[..k]), events[k]) {
      RunIsStamped(rows, events[..k]);
      var w := Run(Start(rows), events[..k]);
      if events[k].Ask? {
        forall id <- w.workers ensures AllStamped(HeldBy(w.workers[id]), StampsIn(rows) + StampsOf(events[..k])) {
        }
      }
    }
  }

  // Runs find segments, so no log entry says otherwise.
  lemma {:induction false} NeverSegmentless(rows: map<nat, Payload>, events: seq<Event>)
    requires forall e <- events :: e.Process? ==> !e.result.NoSegments?
    ensures forall l <- Run(Start(rows), events).log :: l.handling.Completed? || SessionOf(l.entry.key, l.entry.read).None?
  {
    if events != [] {
      NeverSegmentless(rows, events[..|events| - 1]);
      assert events[|events| - 1] in events;
    }
  }

  // Over every interleaving of requests, workers, crashes and conditional
  // deletions in which sessions keep their segments, no accepted request is lost.
  lemma NoRequestIsLost(rows: map<nat, Payload>, events: seq<Event>)
    requires AllFresh(Start(rows), events)
    requires forall e <- events :: e.Process? ==> !e.result.NoSegments?
    ensures NotLost(Run(Start(rows), events))
  {
    RunKeeps(Start(rows), events);
    NeverSegmentless(rows, events);
    var w := Run(Start(rows), events);
    forall i | 0 <= i < |w.accepted| ensures Waiting(w, i) || Served(w, i) {
      if !Waiting(w, i) {
        var k :| 0 <= k < |w.log| && Answers(w, i, w.log[k]);
        assert w.log[k] in w.log;
      }
    }
  }

  // The runs that have read a request all found no segments.
  ghost predicate OnlySegmentless(w: World, i: nat)
    requires i < |w.accepted| && w.accepted[i].Request?
  {
    Handled(w, i) && forall k | 0 <= k < |w.log| && Answers(w, i, w.log[k]) :: w.log[k].handling.Segmentless?
  }

  // With distinct texts an accepted request waits, was served, or was only read by
  // runs that found no segments.
  lemma EveryRequestIsAccounted(rows: map<nat, Payload>, events: seq<Event>, i: nat)
    requires AllFresh(Start(rows), events)
    requires i < |Run(Start(rows), events).accepted|
    ensures var w := Run(Start(rows), events);
            w.accepted[i].Request? && (Waiting(w, i) || Served(w, i) || OnlySegmentless(w, i))
  {
    RunKeeps(Start(rows), events);
    HandlingIsReadable(rows, events);
    var w := Run(Start(rows), events);
    forall k | 0 <= k < |w.log| && Answers(w, i, w.log[k]) ensures !w.log[k].handling.Unreadable? {
      assert w.log[k] in w.log;
    }
  }

  lemma {:induction false} HandlingIsReadable(rows: map<nat, Payload>, events: seq<Event>)
    ensures forall l <- Run(Start(rows), events).log :: l.handling.Unreadable? <==> SessionOf(l.entry.key, l.entry.read).None?
  {
    if events != [] {
      HandlingIsReadable(rows, events[..|events| - 1]);
    }
  }

  // ----- Exactly which deletions lose a request, whatever the texts are

  // A deletion takes the row of its session although some request in it has not
  // been served: one that came after the row was read, whose text is then the
  // same, or any one when the run found no segments.
  ghost predicate Loses(w: World, e: Event) {
    && WritesOk(w) && e.Delete? && e.worker in w.workers && w.workers[e.worker].Deleting?
    && var Deleting(entry, handling, _) := w.workers[e.worker];
       && entry.key in w.rows && w.rows[entry.key] == entry.read
       && exists i: nat :: i < |w.accepted| && w.accepted[i].session == entry.key && !Served(w, i)
                           && (entry.asOf <= i || handling.Segmentless?)
  }

  ghost predicate Base(w: World) {
    && WritesOk(w) && DeletionsLogged(w)
    && forall id <- w.workers | w.workers[id].Deleting? && w.workers[id].handling.Unreadable? ::
         SessionOf(w.workers[id].entry.key, w.workers[id].entry.read).None?
  }

  lemma LossIsExact(w: World, id: nat)
    requires Base(w) && NotLost(w)
    ensures NotLost(Next(w, Delete(id))) <==> !Loses(w, Delete(id))
  {
    var w' := Next(w, Delete(id));
    if id in w.workers && w.workers[id].Deleting? {
      var Deleting(entry, handling, _) := w.workers[id];
      forall i: nat | i < |w.accepted| ensures Served(w, i) <==> Served(w', i) {
        assert w.log == w'.log;
      }
      if Loses(w, Delete(id)) {
        var i: nat :| i < |w.accepted| && w.accepted[i].session == entry.key && !Served(w, i);
        assert !Waiting(w', i) && !Served(w', i);
      } else {
        forall i: nat | i < |w.accepted| ensures Waiting(w', i) || Served(w', i) {
        }
      }
    }
  }

  lemma SameWrites(w: World, w': World)
    requires WritesOk(w) && w'.accepted == w.accepted && w'.written == w.written
    requires forall key <- w'.rows :: key in w.rows && w'.rows[key] == w.rows[key]
    ensures WritesOk(w')
  {
    forall i | 0 <= i < |w'.accepted| && w'.accepted[i].session in w'.rows && LastOf(w', i)
      ensures w'.rows[w'.accepted[i].session] == w'.written[i]
    {
      assert LastOf(w, i);
    }
  }

  lemma BaseNext(w: World, e: Event)
    requires Base(w)
    ensures Base(Next(w, e))
  {
    var w' := Next(w, e);
    if e.Ask? {
      if Answered(e.session, e.reason, e.isExplicit).Registered? {
        AskKeepsWrites(w, e);
      }
    } else {
      SameWrites(w, w');
    }
    forall id <- w'.workers | w'.workers[id].Deleting? ensures Logged(w', w'.workers[id].entry, w'.workers[id].handling) {
      if id in w.workers && w.workers[id] == w'.workers[id] {
        assert Logged(w, w.workers[id].entry, w.workers[id].handling);
      } else {
        assert w'.log[|w.log|] == Log(w'.workers[id].entry, w'.workers[id].handling);
      }
    }
  }

  // Only deletions lose requests.
  lemma StepIsExact(w: World, e: Event)
    requires Base(w) && NotLost(w)
    ensures NotLost(Next(w, e)) <==> !Loses(w, e)
  {
    if e.Delete? {
      LossIsExact(w, e.worker);
    } else if e.Ask? {
      if Answered(e.session, e.reason, e.isExplicit).Registered? {
        AskKeepsRequests(w, e);
      }
    } else {
      var w' := Next(w, e);
      SameWrites(w, w');
      forall i | 0 <= i < |w'.accepted| ensures Waiting(w', i) || Served(w', i) {
        LogStays(w, w', i);
      }
    }
  }

  lemma {:induction false} RunHasBase(w: World, events: seq<Event>)
    requires Base(w)
    ensures Base(Run(w, events))
  {
    if events != [] {
      RunHasBase(w, events[..|events| - 1]);
      BaseNext(Run(w, events[..|events| - 1]), events[|events| - 1]);
    }
  }

  // The event deletes the row of an unserved request after a run without segments.
  predicate Deletes(w: World, e: Event, key: nat) {
    && e.Delete? && e.worker in w.workers && w.workers[e.worker].Deleting?
    && var Deleting(entry, handling, _) := w.workers[e.worker];
       entry.key == key && handling.Segmentless? && key in w.rows && w.rows[key] == entry.read
  }

  lemma DropIsExact(w: World, e: Event, i: nat)
    requires Inv(w) && Base(w) && i < |w.accepted| && (Waiting(w, i) || Served(w, i))
    ensures var w' := Next(w, e);
            && i < |w'.accepted| && w'.accepted[i] == w.accepted[i]
            && (Waiting(w', i) || Served(w', i) <==> Served(w, i) || !Deletes(w, e, w.accepted[i].session))
  {
    var w' := Next(w, e);
    BaseNext(w, e);
    LogStays(w, w', i);
    if e.Ask? {
      if Answered(e.session, e.reason, e.isExplicit).Registered? && Waiting(w, i) {
        AskKeepsWaiting(w, e, i);
      }
    } else if e.Delete? && e.worker in w.workers && w.workers[e.worker].Deleting? && !Served(w, i) {
      var Deleting(entry, handling, _) := w.workers[e.worker];
      assert HeldBy(w.workers[e.worker])[0] == entry;
      assert Logged(w, entry, handling);
      assert w'.log == w.log && !Served(w', i);
      if entry.key == w.accepted[i].session && w.rows[entry.key] == entry.read {
        DeletedRequestIsHandled(w, entry, handling, i);
      }
    }
  }

  // Along a run with distinct texts a request that waits or was served is dropped
  // by an event if and only if it was not served and the event deletes its row
  // after a run that found no segments.
  lemma DroppedExactlyWhen(rows: map<nat, Payload>, events: seq<Event>, k: nat, i: nat)
    requires AllFresh(Start(rows), events) && k < |events|
    requires var w := Run(Start(rows), events[..k]);
             i < |w.accepted| && w.accepted[i].Request? && (Waiting(w, i) || Served(w, i))
    ensures var (w, w') := (Run(Start(rows), events[..k]), Run(Start(rows), events[..k + 1]));
            && i < |w'.accepted| && w'.accepted[i] == w.accepted[i]
            && (!Waiting(w', i) && !Served(w', i) <==> !Served(w, i) && Deletes(w, events[k], w.accepted[i].session))
  {
    var prefix := events[..k];
    forall j | 0 <= j < |prefix| ensures FreshText(Run(Start(rows), prefix[..j]), prefix[j]) {
      assert prefix[..j] == events[..j];
    }
    RunKeeps(Start(rows), prefix);
    RunHasBase(Start(rows), prefix);
    RunNext(Start(rows), events, k);
    DropIsExact(Run(Start(rows), prefix), events[k], i);
  }

  ghost predicate NeverLost(w: World, events: seq<Event>) {
    forall k | 0 <= k <= |events| :: NotLost(Run(w, events[..k]))
  }

  ghost predicate NoLosingStep(w: World, events: seq<Event>) {
    forall k | 0 <= k < |events| :: !Loses(Run(w, events[..k]), events[k])
  }

  // Along any run, with whatever texts and results, no request is ever lost if
  // and only if no deletion of the run loses one.
  lemma RunLosesExactlyWhen(rows: map<nat, Payload>, events: seq<Event>)
    ensures NeverLost(Start(rows), events) <==> NoLosingStep(Start(rows), events)
  {
    var w := Start(rows);
    if NeverLost(w, events) {
      forall k | 0 <= k < |events| ensures !Loses(Run(w, events[..k]), events[k]) {
        assert NotLost(Run(w, events[..k]));
        assert NotLost(Run(w, events[..k + 1]));
        PrefixIsExact(w, events, k);
      }
    }
    if NoLosingStep(w, events) {
      forall k | 0 <= k <= |events| ensures NotLost(Run(w, events[..k])) {
        NoLossSoFar(w, events, k);
      }
    }
  }

  lemma {:induction false} NoLossSoFar(w: World, events: seq<Event>, k: nat)
    requires Base(w) && NotLost(w) && NoLosingStep(w, events) && k <= |events|
    ensures NotLost(Run(w, events[..k]))
  {
    if k > 0 {
      NoLossSoFar(w, events, k - 1);
      assert !Loses(Run(w, events[..k - 1]), events[k - 1]);
      PrefixIsExact(w, events, k - 1);
    }
  }

  lemma PrefixIsExact(w: World, events: seq<Event>, k: nat)
    requires Base(w) && k < |events| && NotLost(Run(w, events[..k]))
    ensures NotLost(Run(w, events[..k + 1])) <==> !Loses(Run(w, events[..k]), events[k])
  {
    RunNext(w, events, k);
    RunHasBase(w, events[..k]);
    StepIsExact(Run(w, events[..k]), events[k]);
  }

  // ----- What the queue reports and what the rows ask for

  // The worker that this event lets process the entry reports its result.
  ghost predicate Reports(w: World, e: Event, entry: Entry, result: QueueResult) {
    && e.Process? && e.worker in w.workers && e.result == result
    && w.workers[e.worker].Working? && w.workers[e.worker].pending != [] && w.workers[e.worker].pending[0] == entry
  }

  ghost predicate Readable(entry: Entry) {
    entry.read.Request? && entry.read.session == entry.key
  }

  // A readable row goes on to its deletion when its run is done or finds no
  // segments; a refused or failed run leaves it for a later pass.
  lemma ReportDecides(w: World, e: Event, entry: Entry, result: QueueResult)
    requires Reports(w, e, entry, result)
    ensures var w' := Next(w, e);
            && w'.rows == w.rows && w'.accepted == w.accepted && e.worker in w'.workers
            && if Readable(entry) && result !in {Done, NoSegments}
               then w'.log == w.log && w'.workers[e.worker] == Working(w.workers[e.worker].pending[1..])
               else
                 var handling := if !Readable(entry) then Unreadable else if result.Done? then Completed else Segmentless;
                 && w'.log == w.log + [Log(entry, handling)]
                 && w'.workers[e.worker] == Deleting(entry, handling, w.workers[e.worker].pending[1..])
  {
  }

  // Some worker processed the entry with this result in the run.
  ghost predicate WasReported(w: World, events: seq<Event>, entry: Entry, result: QueueResult) {
    exists j :: 0 <= j < |events| && Reports(Run(w, events[..j]), events[j], entry, result)
  }

  lemma ReportStays(w: World, events: seq<Event>, entry: Entry, result: QueueResult)
    requires events != [] && WasReported(w, events[..|events| - 1], entry, result)
    ensures WasReported(w, events, entry, result)
  {
    var init := events[..|events| - 1];
    var j :| 0 <= j < |init| && Reports(Run(w, init[..j]), init[j], entry, result);
    assert init[..j] == events[..j];
  }

  // What the log calls completed was read well and its run was done; what it calls
  // segmentless found no segments; the rest could not be read.
  lemma {:induction false} LogIsEarned(rows: map<nat, Payload>, events: seq<Event>, k: nat)
    requires k < |Run(Start(rows), events).log|
    ensures var Log(entry, handling) := Run(Start(rows), events).log[k];
            match handling
            case Completed => Readable(entry) && WasReported(Start(rows), events, entry, Done)
            case Segmentless => Readable(entry) && WasReported(Start(rows), events, entry, NoSegments)
            case Unreadable => !Readable(entry)
    decreases |events|
  {
    if events != [] {
      var (init, e) := (events[..|events| - 1], events[|events| - 1]);
      var w := Run(Start(rows), init);
      var l := Run(Start(rows), events).log[k];
      if k < |w.log| {
        LogIsEarned(rows, init, k);
        assert l == w.log[k];
        if l.handling.Completed? {
          ReportStays(Start(rows), events, l.entry, Done);
        } else if l.handling.Segmentless? {
          ReportStays(Start(rows), events, l.entry, NoSegments);
        }
      } else {
        assert Reports(w, e, l.entry, e.result);
        assert events[..|events| - 1] == init;
      }
    }
  }

  // One of the two things that a request can ask for.
  predicate Wants(flags: Flags, refinement: bool) {
    if refinement then flags.retryRefinement else flags.retranscribe
  }

  // The row that was there at the start asked for it, or an accepted request of
  // the session did.
  ghost predicate AskedFor(rows: map<nat, Payload>, w: World, key: nat, refinement: bool) {
    || (key in rows && rows[key].Request? && Wants(rows[key].flags, refinement))
    || exists i :: 0 <= i < |w.accepted| && AsksFor(w.accepted[i], key, refinement)
  }

  ghost predicate AsksFor(p: Payload, key: nat, refinement: bool) {
    p.Request? && p.session == key && Wants(p.flags, refinement)
  }

  lemma AskedForStays(rows: map<nat, Payload>, w: World, w': World, key: nat, refinement: bool)
    requires w.accepted <= w'.accepted && AskedFor(rows, w, key, refinement)
    ensures AskedFor(rows, w', key, refinement)
  {
    if i :| 0 <= i < |w.accepted| && AsksFor(w.accepted[i], key, refinement) {
      assert AsksFor(w'.accepted[i], key, refinement);
    }
  }

  lemma AskIsAskedFor(rows: map<nat, Payload>, w: World, e: Event, refinement: bool)
    requires e.Ask? && Answered(e.session, e.reason, e.isExplicit).Registered? && Wants(Asked(e), refinement)
    ensures AskedFor(rows, Next(w, e), e.key, refinement)
  {
    assert AsksFor(Next(w, e).accepted[|w.accepted|], e.key, refinement);
  }

  // A row never asks for more than the requests of its session did.
  lemma {:induction false} FlagsAreAskedFor(rows: map<nat, Payload>, events: seq<Event>, key: nat, refinement: bool)
    requires var w := Run(Start(rows), events); key in w.rows && w.rows[key].Request? && Wants(w.rows[key].flags, refinement)
    ensures AskedFor(rows, Run(Start(rows), events), key, refinement)
    decreases |events|
  {
    if events != [] {
      var (init, e) := (events[..|events| - 1], events[|events| - 1]);
      var w := Run(Start(rows), init);
      if e.Ask? && e.key == key && Answered(e.session, e.reason, e.isExplicit).Registered? && Wants(Asked(e), refinement) {
        AskIsAskedFor(rows, w, e, refinement);
      } else {
        FlagsAreAskedFor(rows, init, key, refinement);
        AskedForStays(rows, w, Next(w, e), key, refinement);
      }
    }
  }

  // ----- A run that drops a request, and one that mistakes it

  const OPEN := Session(true, true, true, true)

  const SAME := Ask(1, "r", NO_FLAGS, false, OPEN, 7)

  const ROW := Request(1, "r", NO_FLAGS, 7)

  const ENTRY := Entry(1, ROW, 1)

  // The row was asked for, read, and a run reported on it.
  function Reported(handling: Handling): World {
    World(map[1 := ROW], map[0 := Deleting(ENTRY, handling, [])], [ROW], [ROW], [Log(ENTRY, handling)])
  }

  lemma RowIsRead()
    ensures var w := World(map[1 := ROW], map[], [ROW], [ROW], []);
            Next(w, Snapshot(0, [1])) == w.(workers := map[0 := Working([ENTRY])])
  {
    assert Read(map[1 := ROW], [1], 1) == [ENTRY];
  }

  lemma RunReports(result: QueueResult, handling: Handling)
    requires HandlingOf(ENTRY, result) == Some(handling)
    ensures Run(Start(map[]), [SAME, Snapshot(0, [1]), Process(0, result)]) == Reported(handling)
  {
    var events := [SAME, Snapshot(0, [1]), Process(0, result)];
    assert Run(Start(map[]), events[..0]) == Start(map[]);
    RunNext(Start(map[]), events, 0);
    RowIsRead();
    RunNext(Start(map[]), events, 1);
    RunNext(Start(map[]), events, 2);
    assert events[..3] == events;
  }

  // The session loses its segments between the request and the run.
  const DROPPED := [SAME, Snapshot(0, [1]), Process(0, NoSegments), Delete(0)]

  lemma SegmentlessRunDropsRequest()
    ensures var w := Run(Start(map[]), DROPPED); w.accepted == [ROW] && w.rows == map[] && !NotLost(w)
  {
    RunReports(NoSegments, Segmentless);
    assert DROPPED[..3] == [SAME, Snapshot(0, [1]), Process(0, NoSegments)];
    var w := Run(Start(map[]), DROPPED);
    assert !Waiting(w, 0) && !Served(w, 0);
  }

  // A second request with the text of the first one, accepted between the run
  // and the deletion, is deleted unseen.
  const MISTAKEN := [SAME, Snapshot(0, [1]), Process(0, Done), SAME, Delete(0)]

  lemma SecondRequestArrives()
    ensures Run(Start(map[]), MISTAKEN[..4]) == Next(Reported(Completed), SAME)
  {
    RunReports(Done, Completed);
    assert MISTAKEN[..3] == [SAME, Snapshot(0, [1]), Process(0, Done)];
    RunNext(Start(map[]), MISTAKEN, 3);
  }

  lemma EqualTextLosesRequest()
    ensures var w := Run(Start(map[]), MISTAKEN); w.accepted == [ROW, ROW] && w.rows == map[] && !NotLost(w)
  {
    SecondRequestArrives();
    assert MISTAKEN[..|MISTAKEN| - 1] == MISTAKEN[..4];
    var w := Run(Start(map[]), MISTAKEN);
    assert w == Next(Next(Reported(Completed), SAME), Delete(0));
    assert !Waiting(w, 1) && !Served(w, 1);
  }
}
