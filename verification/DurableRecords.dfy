// What the stored record of one request holds along a run: its registration, its
// receipt, its evidence and its ending (app/analysis/model_journal.py).

module DurableRecords {
  import opened Wrappers
  import opened ModelJournal
  import opened ModelExecution
  import opened DurableOperation

  // The request that comes after those an executor has counted.
  function KeyOf(e: Executor): RequestKey {
    (e.budget.operationId, e.budget.RequestCount() + 1)
  }

  predicate WaitsFor(executors: map<nat, Executor>, id: nat, key: RequestKey) {
    id in executors && InFlight(executors[id]) && KeyOf(executors[id]) == key
  }

  predicate Unfinished(rows: Rows, key: RequestKey) {
    key in rows.requests && !rows.requests[key].state.Finished?
  }

  // A request that somebody waits for has a record without an ending, and nobody
  // else waits for it.
  ghost predicate Unended(w: World) {
    && (forall id: nat, key {:trigger WaitsFor(w.executors, id, key)} :: WaitsFor(w.executors, id, key) ==> Unfinished(w.rows, key))
    && (forall i: nat, j: nat, key {:trigger WaitsFor(w.executors, i, key), WaitsFor(w.executors, j, key)} ::
          WaitsFor(w.executors, i, key) && WaitsFor(w.executors, j, key) ==> i == j)
  }

  // What a receipt, evidence or an ending makes of an unfinished record.
  predicate Rewrites(event: Event, r: RequestRecord, r': RequestRecord) {
    match event
    case Receive(_, usage, _) => r' == r.(state := ResponseReceived, usage := usage)
    case StoreSearch(_, evidence, _) =>
      r.request.protocol.Search? && r.state.ResponseReceived? && r' == r.(search := Some(evidence))
    case Finish(_, usage, _) => r' == r.(state := Finished, usage := usage)
    case _ => false
  }

  // Only the record that an executor waits for changes at its step, nobody else
  // is touched, and it comes to wait for a new request only.
  ghost predicate Effect(w: World, event: Event, w': World) {
    && w'.executors - {event.id} == w.executors - {event.id}
    && (forall key <- w.rows.requests :: key in w'.rows.requests && (w'.rows.requests[key] == w.rows.requests[key]
          || (WaitsFor(w.executors, event.id, key) && Rewrites(event, w.rows.requests[key], w'.rows.requests[key]))))
    && (forall key {:trigger WaitsFor(w'.executors, event.id, key)} :: WaitsFor(w'.executors, event.id, key) ==>
          Unfinished(w'.rows, key) && (WaitsFor(w.executors, event.id, key) || key !in w.rows.requests))
  }

  lemma EffectKeeps(w: World, event: Event, w': World)
    requires Unended(w) && Effect(w, event, w')
    ensures Unended(w')
  {
    var id := event.id;
    forall j: nat, key | WaitsFor(w'.executors, j, key)
      ensures Unfinished(w'.rows, key) && (j != id ==> WaitsFor(w.executors, j, key))
    {
      if j != id {
        assert j in w'.executors - {id};
        assert WaitsFor(w.executors, j, key);
      }
    }
  }

  // ----- What one write does to a record

  // A write under this weather reaches the table, told or not.
  predicate Reaches(journal: Journal, weather: Weather) {
    !journal.failed && weather != StorageError(false)
  }

  function WithRecord(rows: Rows, key: RequestKey, r: RequestRecord): Rows {
    rows.(requests := rows.requests[key := r])
  }

  ghost predicate Ours(rows: Rows, key: RequestKey) {
    key in rows.requests && rows.requests[key].operationId == key.0 && rows.requests[key].number == key.1
  }

  lemma ReceiptWrites(rows: Rows, e: Executor, usage: Usage, weather: Weather)
    requires Ours(rows, KeyOf(e)) && Unfinished(rows, KeyOf(e))
    ensures var (s, key) := (ReceiptSaved(e, rows, usage, weather), KeyOf(e));
            && s.rows == (if Reaches(e.journal, weather)
                          then WithRecord(rows, key, rows.requests[key].(state := ResponseReceived, usage := usage)) else rows)
            && (s.outcome.Ok? <==> !e.journal.failed && !weather.StorageError?)
  {
  }

  lemma EvidenceWrites(rows: Rows, e: Executor, evidence: string, weather: Weather)
    requires Ours(rows, KeyOf(e)) && Unfinished(rows, KeyOf(e))
    ensures var (s, key) := (EvidenceSaved(e, rows, evidence, weather), KeyOf(e));
            var received := rows.requests[key].request.protocol.Search? && rows.requests[key].state.ResponseReceived?;
            && s.rows == (if received && Reaches(e.journal, weather)
                          then WithRecord(rows, key, rows.requests[key].(search := Some(evidence))) else rows)
            && (s.outcome.Ok? <==> received && !e.journal.failed && !weather.StorageError?)
  {
  }

  lemma EndingWrites(rows: Rows, e: Executor, usage: Usage, weather: Weather)
    requires Ours(rows, KeyOf(e)) && Unfinished(rows, KeyOf(e)) && e.budget.RequestCount() < e.budget.maxAttempts
    ensures var (s, key) := (Recorded(e, rows, e.budget.RequestCount() + 1, usage, weather), KeyOf(e));
            && s.rows == (if Reaches(e.journal, weather)
                          then WithRecord(rows, key, rows.requests[key].(state := Finished, usage := usage)) else rows)
            && (s.outcome.Ok? <==> !e.journal.failed && !weather.StorageError?)
  {
  }

  // A finished record takes no receipt, no evidence and no second ending.
  lemma FinishedIsRefused(rows: Rows, e: Executor, usage: Usage, evidence: string, weather: Weather)
    requires KeyOf(e) in rows.requests && rows.requests[KeyOf(e)].state.Finished?
    ensures var (received, stored, ended) :=
              (ReceiptSaved(e, rows, usage, weather), EvidenceSaved(e, rows, evidence, weather),
               Recorded(e, rows, e.budget.RequestCount() + 1, usage, weather));
            && received.rows == stored.rows == ended.rows == rows
            && !received.outcome.Ok? && !stored.outcome.Ok? && !ended.outcome.Ok?
  {
  }

  // ----- What each event does

  lemma WaitedIsOurs(w: World, id: nat)
    requires Inv(w) && Unended(w) && id in w.executors && InFlight(w.executors[id])
    ensures Ours(w.rows, KeyOf(w.executors[id])) && Unfinished(w.rows, KeyOf(w.executors[id]))
    ensures w.executors[id].budget.RequestCount() < w.executors[id].budget.maxAttempts
  {
    var key := KeyOf(w.executors[id]);
    assert WaitsFor(w.executors, id, key);
    assert RecordMatches(w.rows, key.0, key.1, Some(w.rows.operations[key.0].target));
    HasRoom(w.rows, w.executors[id]);
  }

  // A record of the one that waits takes a new content without an ending.
  lemma UpdateEffect(w: World, event: Event, w': World, r: RequestRecord)
    requires Unended(w) && event.id in w.executors && event.id in w'.executors && w'.executors - {event.id} == w.executors - {event.id}
    requires InFlight(w.executors[event.id]) && Waits(w.executors[event.id], w'.executors[event.id])
    requires var key := KeyOf(w.executors[event.id]);
             && key in w.rows.requests && !r.state.Finished?
             && (w'.rows == w.rows || (Rewrites(event, w.rows.requests[key], r) && w'.rows == WithRecord(w.rows, key, r)))
    ensures Effect(w, event, w')
  {
    var key := KeyOf(w.executors[event.id]);
    assert WaitsFor(w.executors, event.id, key);
    forall k | WaitsFor(w'.executors, event.id, k) ensures k == key {
    }
  }

  lemma PutOthers<T>(w: World, id: nat, s: Step<T>)
    ensures var w' := Put(w, id, s);
            w'.executors - {id} == w.executors - {id} && id in w'.executors && w'.executors[id] == s.executor && w'.rows == s.rows
  {
  }

  lemma ReceiveEffect(w: World, id: nat, usage: Usage, weather: Weather)
    requires Inv(w) && Unended(w) && id in w.executors && InFlight(w.executors[id])
    ensures Effect(w, Receive(id, usage, weather), Next(w, Receive(id, usage, weather)))
  {
    var e := w.executors[id];
    WaitedIsOurs(w, id);
    ReceiptCases(w.rows, e, usage, weather);
    ReceiptWrites(w.rows, e, usage, weather);
    PutOthers(w, id, ReceiptSaved(e, w.rows, usage, weather));
    UpdateEffect(w, Receive(id, usage, weather), Next(w, Receive(id, usage, weather)),
                 w.rows.requests[KeyOf(e)].(state := ResponseReceived, usage := usage));
  }

  lemma StoreSearchEffect(w: World, id: nat, evidence: string, weather: Weather)
    requires Inv(w) && Unended(w) && id in w.executors && InFlight(w.executors[id])
    ensures Effect(w, StoreSearch(id, evidence, weather), Next(w, StoreSearch(id, evidence, weather)))
  {
    var e := w.executors[id];
    WaitedIsOurs(w, id);
    EvidenceCases(w.rows, e, evidence, weather);
    EvidenceWrites(w.rows, e, evidence, weather);
    PutOthers(w, id, EvidenceSaved(e, w.rows, evidence, weather));
    UpdateEffect(w, StoreSearch(id, evidence, weather), Next(w, StoreSearch(id, evidence, weather)),
                 w.rows.requests[KeyOf(e)].(search := Some(evidence)));
  }

  lemma FinishWrites(w: World, id: nat, usage: Usage, weather: Weather)
    requires id in w.executors && InFlight(w.executors[id])
    requires w.executors[id].budget.RequestCount() < w.executors[id].budget.maxAttempts
    requires Ours(w.rows, KeyOf(w.executors[id])) && Unfinished(w.rows, KeyOf(w.executors[id]))
    ensures var (e, key) := (w.executors[id], KeyOf(w.executors[id]));
            Next(w, Finish(id, usage, weather)).rows
            == if Reaches(e.journal, weather)
               then WithRecord(w.rows, key, w.rows.requests[key].(state := Finished, usage := usage)) else w.rows
  {
    EndingWrites(w.rows, w.executors[id], usage, weather);
  }

  lemma EndedEffect(w: World, event: Event, w': World, r: RequestRecord)
    requires event.id in w.executors && event.id in w'.executors && w'.executors - {event.id} == w.executors - {event.id}
    requires InFlight(w.executors[event.id]) && !InFlight(w'.executors[event.id])
    requires var key := KeyOf(w.executors[event.id]);
             && key in w.rows.requests
             && (w'.rows == w.rows || (Rewrites(event, w.rows.requests[key], r) && w'.rows == WithRecord(w.rows, key, r)))
    ensures Effect(w, event, w')
  {
    assert WaitsFor(w.executors, event.id, KeyOf(w.executors[event.id]));
  }

  lemma FinishEffect(w: World, id: nat, usage: Usage, weather: Weather)
    requires Inv(w) && Unended(w) && id in w.executors && InFlight(w.executors[id])
    ensures Effect(w, Finish(id, usage, weather), Next(w, Finish(id, usage, weather)))
  {
    var e := w.executors[id];
    WaitedIsOurs(w, id);
    FinishWrites(w, id, usage, weather);
    FinishCounts(w, id, usage, weather);
    EndedEffect(w, Finish(id, usage, weather), Next(w, Finish(id, usage, weather)),
                w.rows.requests[KeyOf(e)].(state := Finished, usage := usage));
  }

  // The records stay as they are and the executor waits for what it waited for.
  lemma QuietEffect(w: World, event: Event, w': World)
    requires Unended(w) && event.id in w.executors && w'.rows.requests == w.rows.requests
    requires w'.executors - {event.id} == w.executors - {event.id} && event.id in w'.executors
    requires Waits(w.executors[event.id], w'.executors[event.id])
    ensures Effect(w, event, w')
  {
    forall key | WaitsFor(w'.executors, event.id, key) ensures WaitsFor(w.executors, event.id, key) {
    }
  }

  lemma SaveRecords(rows: Rows, e: Executor, a: Allowances, weather: Weather)
    requires e.journal.state.Some?
    ensures SaveLocal(e.(budget := e.budget.(allowances := a)), rows, weather).rows.requests == rows.requests
  {
    SaveCases(rows, e.(budget := e.budget.(allowances := a)), weather);
  }

  lemma ClaimEffect(w: World, event: Event)
    requires Inv(w) && Unended(w) && event.id in w.executors && event.ClaimAllowance?
    ensures Effect(w, event, Next(w, event))
  {
    var e := w.executors[event.id];
    SaveRecords(w.rows, e, Granting(e.budget.allowances, event.allowance), event.weather);
    ClaimCounts(w.rows, e, event.allowance, event.probe, event.weather);
    PutOthers(w, event.id, Claimed(e, w.rows, event.allowance, event.probe, event.weather));
    QuietEffect(w, event, Next(w, event));
  }

  lemma NegotiateEffect(w: World, event: Event)
    requires Inv(w) && Unended(w) && event.id in w.executors && event.UseProtocol?
    ensures Effect(w, event, Next(w, event))
  {
    var e := w.executors[event.id];
    SaveRecords(w.rows, e, SetProtocol(e.budget, event.route, event.initial).allowances, event.weather);
    NegotiateCounts(w.rows, e, event.route, event.initial, event.weather);
    PutOthers(w, event.id, Negotiated(e, w.rows, event.route, event.initial, event.weather));
    QuietEffect(w, event, Next(w, event));
  }

  lemma DowngradeEffect(w: World, event: Event)
    requires Inv(w) && Unended(w) && event.id in w.executors && event.Downgrade?
    ensures Effect(w, event, Next(w, event))
  {
    var e := w.executors[event.id];
    DowngradeRecords(w.rows, e, event.route, event.first, event.second);
    DowngradeCounts(w.rows, e, event.route, event.first, event.second);
    PutOthers(w, event.id, Downgraded(e, w.rows, event.route, event.first, event.second));
    QuietEffect(w, event, Next(w, event));
  }

  lemma DowngradeRecords(rows: Rows, e: Executor, route: Route, first: Weather, second: Weather)
    requires e.journal.state.Some?
    ensures Downgraded(e, rows, route, first, second).rows.requests == rows.requests
  {
    SaveRecords(rows, e, SetProtocol(e.budget, route, JsonSchema).allowances, first);
    NegotiateCounts(rows, e, route, JsonSchema, first);
    var known := Negotiated(e, rows, route, JsonSchema, first);
    var b := known.executor.budget;
    if known.outcome.Ok? {
      SaveRecords(known.rows, known.executor, SetProtocol(b, route, Lower(b.allowances.protocols[route])).allowances, second);
    }
  }

  lemma OpenRecords(j: Journal, rows: Rows, id: string, maxAttempts: nat, elapsed: real, now: real, weather: Weather)
    ensures Opened(j, rows, id, maxAttempts, elapsed, now, weather).rows.requests == rows.requests
  {
  }

  lemma OpenEffect(w: World, event: Event)
    requires Inv(w) && Unended(w) && event.Open?
    ensures Effect(w, event, Next(w, event))
  {
    var j := Journal(Some(event.target), false, None);
    var w1 := Opened(j, w.rows, event.operationId, event.maxAttempts, event.elapsed, event.now, event.weather);
    OpenRecords(j, w.rows, event.operationId, event.maxAttempts, event.elapsed, event.now, event.weather);
    OpenedEffect(w, event, w1, Next(w, event));
  }

  lemma OpenedEffect(w: World, event: Event, w1: Write, w': World)
    requires Unended(w) && w1.rows.requests == w.rows.requests
    requires w' == w
             || w' == w.(rows := w1.rows)
             || (event.id !in w.executors && w1.journal.state.Some?
                 && w' == w.(rows := w1.rows, executors := w.executors[event.id := Resumed(w1.journal, w1.journal.state.value)]))
    ensures Effect(w, event, w')
  {
    if event.id in w'.executors && event.id !in w.executors {
      assert !InFlight(w'.executors[event.id]);
    }
  }

  // A start adds a record without an ending or leaves all as they are.
  lemma StartRecords(rows: Rows, e: Executor, request: Request, s: Step<Result>)
    requires RowsOk(rows) && ExecutorOk(rows, e) && s.executor == e.(journal := s.executor.journal)
    requires StartOutcome(e.journal, rows, FirstRecord(e, request), Write(s.executor.journal, s.rows, s.outcome))
    ensures s.rows == rows || (KeyOf(e) !in rows.requests && s.rows.requests == rows.requests[KeyOf(e) := FirstRecord(e, request)])
    ensures if s.outcome.Ok? then s.rows != rows && InFlight(s.executor)
            else InFlight(s.executor) <==> InFlight(e)
    ensures KeyOf(s.executor) == KeyOf(e)
  {
  }

  lemma StartedEffect(w: World, event: Event, r: RequestRecord, s: Step<Result>)
    requires Unended(w) && event.id in w.executors && !r.state.Finished?
    requires var e := w.executors[event.id];
             && (s.rows == w.rows || (KeyOf(e) !in w.rows.requests && s.rows.requests == w.rows.requests[KeyOf(e) := r]))
             && (if s.outcome.Ok? then s.rows != w.rows else InFlight(s.executor) <==> InFlight(e))
             && KeyOf(s.executor) == KeyOf(e)
    ensures Effect(w, event, Put(w, event.id, s))
  {
    var id := event.id;
    var (e, w') := (w.executors[id], Put(w, id, s));
    forall key | WaitsFor(w'.executors, id, key)
      ensures Unfinished(w'.rows, key) && (WaitsFor(w.executors, id, key) || key !in w.rows.requests)
    {
      assert key == KeyOf(e);
      assert !s.outcome.Ok? ==> WaitsFor(w.executors, id, key);
    }
  }

  lemma SendEffect(w: World, event: Event)
    requires Inv(w) && Unended(w) && event.Send? && event.id in w.executors
    ensures Effect(w, event, Next(w, event))
  {
    var e := w.executors[event.id];
    var s := RequestStarted(e, w.rows, event.request, event.now, event.weather);
    StartStepCases(w.rows, e, event.request, event.now, event.weather);
    StartRecords(w.rows, e, event.request, s);
    StartedEffect(w, event, FirstRecord(e, event.request), s);
    assert Next(w, event).(sent := w.sent) == Put(w, event.id, s);
  }

  lemma NextEffect(w: World, event: Event)
    requires Inv(w) && Unended(w)
    ensures Effect(w, event, Next(w, event))
  {
    if event.Open? {
      OpenEffect(w, event);
    } else if event.id !in w.executors || event.Crash? {
    } else if event.Send? {
      SendEffect(w, event);
    } else if event.ClaimAllowance? {
      ClaimEffect(w, event);
    } else if event.UseProtocol? {
      NegotiateEffect(w, event);
    } else if event.Downgrade? {
      DowngradeEffect(w, event);
    } else if !InFlight(w.executors[event.id]) {
    } else if event.Receive? {
      ReceiveEffect(w, event.id, event.usage, event.weather);
    } else if event.StoreSearch? {
      StoreSearchEffect(w, event.id, event.evidence, event.weather);
    } else {
      FinishEffect(w, event.id, event.usage, event.weather);
    }
  }

  // ----- Whole runs

  lemma {:induction false} RunKeepsUnended(w: World, events: seq<Event>)
    requires Inv(w) && Unended(w)
    ensures Inv(Run(w, events)) && Unended(Run(w, events))
    decreases |events|
  {
    if events != [] {
      NextEffect(w, events[0]);
      EffectKeeps(w, events[0], Next(w, events[0]));
      NextKeeps(w, events[0]);
      RunKeepsUnended(Next(w, events[0]), events[1..]);
    }
  }

  // Over every run, whoever waits for a request waits alone, and its record is
  // there and has no ending.
  lemma WaitingIsUnended(events: seq<Event>, id: nat)
    ensures var w := Run(START, events);
            && Inv(w) && Unended(w)
            && (id in w.executors && InFlight(w.executors[id]) ==>
                  && Unfinished(w.rows, KeyOf(w.executors[id]))
                  && forall j: nat :: WaitsFor(w.executors, j, KeyOf(w.executors[id])) ==> j == id)
  {
    RunKeepsUnended(START, events);
    var w := Run(START, events);
    if id in w.executors && InFlight(w.executors[id]) {
      assert WaitsFor(w.executors, id, KeyOf(w.executors[id]));
    }
  }

  // The record is there and at most this executor waits for it.
  ghost predicate Owned(w: World, id: nat, key: RequestKey) {
    && Inv(w) && Unended(w) && key in w.rows.requests
    && forall j: nat {:trigger WaitsFor(w.executors, j, key)} :: WaitsFor(w.executors, j, key) ==> j == id
  }

  lemma OthersStay(w: World, event: Event, w': World, key: RequestKey)
    requires Effect(w, event, w')
    ensures forall j: nat {:trigger WaitsFor(w'.executors, j, key)} ::
              WaitsFor(w'.executors, j, key) && j != event.id ==> WaitsFor(w.executors, j, key)
  {
    forall j: nat | WaitsFor(w'.executors, j, key) && j != event.id ensures WaitsFor(w.executors, j, key) {
      assert j in w'.executors - {event.id};
    }
  }

  lemma OwnedEffect(w: World, event: Event, w': World, id: nat, key: RequestKey)
    requires Unended(w) && Effect(w, event, w') && Unended(w') && Inv(w') && Owned(w, id, key)
    ensures Owned(w', id, key)
    ensures var (r, r') := (w.rows.requests[key], w'.rows.requests[key]);
            r' == r || (event.id == id && !r.state.Finished? && Rewrites(event, r, r'))
  {
    OthersStay(w, event, w', key);
  }

  lemma OwnedStep(w: World, event: Event, id: nat, key: RequestKey)
    requires Owned(w, id, key)
    ensures Owned(Next(w, event), id, key)
    ensures var (r, r') := (w.rows.requests[key], Next(w, event).rows.requests[key]);
            r' == r || (event.id == id && !r.state.Finished? && Rewrites(event, r, r'))
  {
    NextEffect(w, event);
    NextKeeps(w, event);
    EffectKeeps(w, event, Next(w, event));
    OwnedEffect(w, event, Next(w, event), id, key);
  }

  // What holds of a record and survives every rewriting by its executor's events
  // holds of it for the rest of the run.
  lemma {:induction false} RecordKeeps(w: World, id: nat, key: RequestKey, events: seq<Event>, holds: RequestRecord -> bool)
    requires Owned(w, id, key) && holds(w.rows.requests[key])
    requires forall event: Event, r: RequestRecord, r': RequestRecord |
               event in events && event.id == id && !r.state.Finished? && Rewrites(event, r, r') && holds(r) :: holds(r')
    ensures Owned(Run(w, events), id, key) && holds(Run(w, events).rows.requests[key])
    decreases |events|
  {
    if events != [] {
      OwnedStep(w, events[0], id, key);
      assert events[0] in events;
      RecordKeeps(Next(w, events[0]), id, key, events[1..], holds);
    }
  }

  lemma WaitedIsOwned(w: World, id: nat)
    requires Inv(w) && Unended(w) && id in w.executors && InFlight(w.executors[id])
    ensures Owned(w, id, KeyOf(w.executors[id])) && Ours(w.rows, KeyOf(w.executors[id]))
    ensures Unfinished(w.rows, KeyOf(w.executors[id]))
    ensures w.executors[id].budget.RequestCount() < w.executors[id].budget.maxAttempts
  {
    assert WaitsFor(w.executors, id, KeyOf(w.executors[id]));
    WaitedIsOurs(w, id);
  }

  // How a step of the waiting executor rewrites its record; `writes` says whether.
  ghost predicate Rewritten(w: World, id: nat, w': World, writes: bool, r: RequestRecord) {
    && id in w.executors
    && var key := (w.executors[id].budget.operationId, w.executors[id].budget.RequestCount() + 1);
       && Owned(w', id, key) && Unfinished(w.rows, key)
       && w'.rows == if writes then w.rows.(requests := w.rows.requests[key := r]) else w.rows
  }

  lemma EndingRewrites(w: World, id: nat, usage: Usage, weather: Weather)
    requires Inv(w) && Unended(w) && id in w.executors && InFlight(w.executors[id])
    ensures var (e, key) := (w.executors[id], KeyOf(w.executors[id]));
            && key in w.rows.requests
            && Rewritten(w, id, Next(w, Finish(id, usage, weather)), Reaches(e.journal, weather),
                         w.rows.requests[key].(state := Finished, usage := usage))
  {
    var e := w.executors[id];
    WaitedIsOwned(w, id);
    FinishWrites(w, id, usage, weather);
    OwnedStep(w, Finish(id, usage, weather), id, KeyOf(e));
  }

  lemma ReceiptRewrites(w: World, id: nat, usage: Usage, weather: Weather)
    requires Inv(w) && Unended(w) && id in w.executors && InFlight(w.executors[id])
    ensures var (e, key) := (w.executors[id], KeyOf(w.executors[id]));
            && key in w.rows.requests
            && Rewritten(w, id, Next(w, Receive(id, usage, weather)), Reaches(e.journal, weather),
                         w.rows.requests[key].(state := ResponseReceived, usage := usage))
  {
    var e := w.executors[id];
    WaitedIsOwned(w, id);
    ReceiptWrites(w.rows, e, usage, weather);
    OwnedStep(w, Receive(id, usage, weather), id, KeyOf(e));
  }

  // A search that has its receipt.
  predicate Received(r: RequestRecord) {
    r.request.protocol.Search? && r.state.ResponseReceived?
  }

  lemma EvidenceRewrites(w: World, id: nat, evidence: string, weather: Weather)
    requires Inv(w) && Unended(w) && id in w.executors && InFlight(w.executors[id])
    ensures var (e, key) := (w.executors[id], KeyOf(w.executors[id]));
            && key in w.rows.requests
            && Rewritten(w, id, Next(w, StoreSearch(id, evidence, weather)),
                         Received(w.rows.requests[key]) && Reaches(e.journal, weather),
                         w.rows.requests[key].(search := Some(evidence)))
  {
    var e := w.executors[id];
    WaitedIsOwned(w, id);
    EvidenceWrites(w.rows, e, evidence, weather);
    OwnedStep(w, StoreSearch(id, evidence, weather), id, KeyOf(e));
  }

  lemma RewrittenKeeps(w: World, id: nat, w': World, r: RequestRecord, later: seq<Event>, holds: RequestRecord -> bool)
    requires Rewritten(w, id, w', true, r) && holds(r)
    requires forall event: Event, x: RequestRecord, y: RequestRecord |
               event in later && event.id == id && !x.state.Finished? && Rewrites(event, x, y) && holds(x) :: holds(y)
    ensures var key := KeyOf(w.executors[id]);
            && key in w'.rows.requests && w'.rows.requests[key] == r
            && key in Run(w', later).rows.requests && holds(Run(w', later).rows.requests[key])
  {
    RecordKeeps(w', id, KeyOf(w.executors[id]), later, holds);
  }

  lemma ReceiptStays(w: World, id: nat, w': World, usage: Usage, writes: bool, later: seq<Event>)
    requires id in w.executors && KeyOf(w.executors[id]) in w.rows.requests
    requires Rewritten(w, id, w', writes,
                       w.rows.requests[KeyOf(w.executors[id])].(state := ResponseReceived, usage := usage))
    requires forall event <- later :: event.id == id ==> !event.Receive? && !event.Finish?
    ensures var key := KeyOf(w.executors[id]);
            writes ==> && key in Run(w', later).rows.requests
                       && var x := Run(w', later).rows.requests[key]; x.state == ResponseReceived && x.usage == usage
  {
    if writes {
      RewrittenKeeps(w, id, w', w.rows.requests[KeyOf(w.executors[id])].(state := ResponseReceived, usage := usage), later,
                     (x: RequestRecord) => x.state == ResponseReceived && x.usage == usage);
    }
  }

  lemma EvidenceStays(w: World, id: nat, w': World, evidence: string, writes: bool, later: seq<Event>)
    requires id in w.executors && KeyOf(w.executors[id]) in w.rows.requests
    requires Rewritten(w, id, w', writes, w.rows.requests[KeyOf(w.executors[id])].(search := Some(evidence)))
    requires forall event <- later :: event.id == id ==> !event.StoreSearch?
    ensures var key := KeyOf(w.executors[id]);
            writes ==> key in Run(w', later).rows.requests && Run(w', later).rows.requests[key].search == Some(evidence)
  {
    if writes {
      RewrittenKeeps(w, id, w', w.rows.requests[KeyOf(w.executors[id])].(search := Some(evidence)), later,
                     (x: RequestRecord) => x.search == Some(evidence));
    }
  }

  // In every run the ending of a waiting executor reaches the table unless its
  // journal has failed or the storage fails before the commit. The record is then
  // finished with the reported usage and stays as it is for the rest of the run,
  // whoever sends what.
  lemma EndingIsFinal(events: seq<Event>, id: nat, usage: Usage, weather: Weather, later: seq<Event>)
    requires id in Run(START, events).executors && InFlight(Run(START, events).executors[id])
    ensures var w := Run(START, events);
            var e := w.executors[id];
            var ended := Next(w, Finish(id, usage, weather));
            var key := KeyOf(e);
            && key in w.rows.requests && !w.rows.requests[key].state.Finished?
            && var r := w.rows.requests[key].(state := Finished, usage := usage);
               if e.journal.failed || weather == StorageError(false) then ended.rows == w.rows
               else && ended.rows == w.rows.(requests := w.rows.requests[key := r])
                    && key in Run(ended, later).rows.requests && Run(ended, later).rows.requests[key] == r
  {
    WaitingIsUnended(events, id);
    var w := Run(START, events);
    EndingRewrites(w, id, usage, weather);
    if Reaches(w.executors[id].journal, weather) {
      var r := w.rows.requests[KeyOf(w.executors[id])].(state := Finished, usage := usage);
      RewrittenKeeps(w, id, Next(w, Finish(id, usage, weather)), r, later, (x: RequestRecord) => x == r);
    }
  }

  // So at any later time of the run no executor that comes to this number again
  // has a receipt, evidence or a second ending accepted.
  lemma EndedIsRefused(events: seq<Event>, id: nat, usage: Usage, weather: Weather, later: seq<Event>,
                       e: Executor, usage': Usage, evidence: string, weather': Weather)
    requires id in Run(START, events).executors && InFlight(Run(START, events).executors[id])
    requires !Run(START, events).executors[id].journal.failed && weather != StorageError(false)
    requires KeyOf(e) == KeyOf(Run(START, events).executors[id])
    ensures var rows := Run(Next(Run(START, events), Finish(id, usage, weather)), later).rows;
            var (received, stored, ended) :=
              (ReceiptSaved(e, rows, usage', weather'), EvidenceSaved(e, rows, evidence, weather'),
               Recorded(e, rows, e.budget.RequestCount() + 1, usage', weather'));
            && received.rows == stored.rows == ended.rows == rows
            && !received.outcome.Ok? && !stored.outcome.Ok? && !ended.outcome.Ok?
  {
    EndingIsFinal(events, id, usage, weather, later);
    FinishedIsRefused(Run(Next(Run(START, events), Finish(id, usage, weather)), later).rows, e, usage', evidence, weather');
  }

  // In the same way a receipt is stored with its usage and stays until its
  // executor reports another receipt or the ending.
  lemma ReceiptIsKept(events: seq<Event>, id: nat, usage: Usage, weather: Weather, later: seq<Event>)
    requires id in Run(START, events).executors && InFlight(Run(START, events).executors[id])
    requires forall event <- later :: event.id == id ==> !event.Receive? && !event.Finish?
    ensures var w := Run(START, events);
            var e := w.executors[id];
            var received := Next(w, Receive(id, usage, weather));
            var key := KeyOf(e);
            && key in w.rows.requests && !w.rows.requests[key].state.Finished?
            && var r := w.rows.requests[key].(state := ResponseReceived, usage := usage);
               if e.journal.failed || weather == StorageError(false) then received.rows == w.rows
               else && received.rows == w.rows.(requests := w.rows.requests[key := r])
                    && key in Run(received, later).rows.requests
                    && var x := Run(received, later).rows.requests[key]; x.state == ResponseReceived && x.usage == usage
  {
    WaitingIsUnended(events, id);
    var w := Run(START, events);
    ReceiptRewrites(w, id, usage, weather);
    ReceiptStays(w, id, Next(w, Receive(id, usage, weather)), usage, Reaches(w.executors[id].journal, weather), later);
  }

  // Evidence is stored exactly for a search that has its receipt, and stays until
  // its executor stores other evidence, through the ending and after it.
  lemma EvidenceIsKept(events: seq<Event>, id: nat, evidence: string, weather: Weather, later: seq<Event>)
    requires id in Run(START, events).executors && InFlight(Run(START, events).executors[id])
    requires forall event <- later :: event.id == id ==> !event.StoreSearch?
    ensures var w := Run(START, events);
            var e := w.executors[id];
            var stored := Next(w, StoreSearch(id, evidence, weather));
            var key := KeyOf(e);
            && key in w.rows.requests
            && var (r, x) := (w.rows.requests[key], w.rows.requests[key].(search := Some(evidence)));
               if !r.request.protocol.Search? || !r.state.ResponseReceived? || e.journal.failed
                  || weather == StorageError(false)
               then stored.rows == w.rows
               else && stored.rows == w.rows.(requests := w.rows.requests[key := x])
                    && key in Run(stored, later).rows.requests
                    && Run(stored, later).rows.requests[key].search == Some(evidence)
  {
    WaitingIsUnended(events, id);
    var w := Run(START, events);
    EvidenceRewrites(w, id, evidence, weather);
    EvidenceStays(w, id, Next(w, StoreSearch(id, evidence, weather)), evidence,
                  Received(w.rows.requests[KeyOf(w.executors[id])]) && Reaches(w.executors[id].journal, weather), later);
  }

  // A start that registers its request stores it as it was given, unconfirmed and
  // without usage or evidence, and this stays until its executor reports on it.
  lemma RegistrationIsKept(events: seq<Event>, send: Event, later: seq<Event>)
    requires send.Send? && send.id in Run(START, events).executors
    requires Registers(Run(START, events), send, Run(START, events).executors[send.id].budget.operationId)
    requires forall event <- later :: event.id == send.id ==> !event.Receive? && !event.StoreSearch? && !event.Finish?
    ensures var e := Run(START, events).executors[send.id];
            var key := (e.budget.operationId, e.budget.RequestCount() + 1);
            var after := Run(Next(Run(START, events), send), later);
            && key in after.rows.requests
            && after.rows.requests[key]
               == RequestRecord(key.0, key.1, e.journal.target, send.request, Unconfirmed, NO_USAGE, None)
  {
    WaitingIsUnended(events, send.id);
    var w := Run(START, events);
    var e := w.executors[send.id];
    var key := KeyOf(e);
    StartStepCases(w.rows, e, send.request, send.now, send.weather);
    StartRecords(w.rows, e, send.request, RequestStarted(e, w.rows, send.request, send.now, send.weather));
    RegisteredIsOwned(w, send, key);
    var r := FirstRecord(e, send.request);
    RecordKeeps(Next(w, send), send.id, key, later, (x: RequestRecord) => x == r);
  }

  lemma NewIsOwned(w: World, event: Event, w': World, key: RequestKey)
    requires Unended(w) && Effect(w, event, w') && Unended(w') && Inv(w')
    requires key !in w.rows.requests && key in w'.rows.requests
    ensures Owned(w', event.id, key)
  {
    OthersStay(w, event, w', key);
  }

  lemma RegisteredIsOwned(w: World, event: Event, key: RequestKey)
    requires Inv(w) && Unended(w) && key !in w.rows.requests && key in Next(w, event).rows.requests
    ensures Owned(Next(w, event), event.id, key)
  {
    NextEffect(w, event);
    NextKeeps(w, event);
    EffectKeeps(w, event, Next(w, event));
    NewIsOwned(w, event, Next(w, event), key);
  }

  // ----- What an executor works with

  // A new executor starts from what is stored of its operation, not from what it
  // asked for.
  lemma OpenResumes(w: World, event: Event)
    requires event.Open? && event.id !in w.executors && event.id in Next(w, event).executors
    ensures var (w', id) := (Next(w, event), event.operationId);
            && id in w'.rows.operations
            && var stored := w'.rows.operations[id];
               && w'.executors[event.id].budget
                  == Budget(stored.operationId, stored.maxAttempts, stored.deadline, stored.requestCount, 0, stored.allowances)
               && w'.executors[event.id].journal == Journal(Some(event.target), false, Some(stored))
  {
  }

  // The deadline and the limit of an executor are those of its operation.
  ghost predicate OnTerms(rows: Rows, e: Executor) {
    && e.budget.operationId in rows.operations
    && e.budget.deadline == rows.operations[e.budget.operationId].deadline
    && e.budget.maxAttempts == rows.operations[e.budget.operationId].maxAttempts
  }

  ghost predicate SameTerms(e: Executor, e': Executor) {
    && e'.budget.operationId == e.budget.operationId
    && e'.budget.deadline == e.budget.deadline && e'.budget.maxAttempts == e.budget.maxAttempts
  }

  lemma StepKeepsTerms(w: World, event: Event, id: nat)
    requires id in w.executors && id in Next(w, event).executors
    ensures SameTerms(w.executors[id], Next(w, event).executors[id])
  {
  }

  lemma TermsSurvive(rows: Rows, rows': Rows, e: Executor, e': Executor)
    requires Grows(rows, rows') && OnTerms(rows, e) && SameTerms(e, e')
    ensures OnTerms(rows', e')
  {
    assert Past(rows.operations[e.budget.operationId], rows'.operations[e.budget.operationId]);
  }

  lemma OpenOnTerms(w: World, event: Event)
    requires event.Open? && event.id !in w.executors && event.id in Next(w, event).executors
    requires RowsOk(Next(w, event).rows)
    ensures OnTerms(Next(w, event).rows, Next(w, event).executors[event.id])
  {
    OpenResumes(w, event);
    assert Numbered(Next(w, event).rows, event.operationId);
  }

  lemma OnlyOpenAdds(w: World, event: Event, id: nat)
    requires id in Next(w, event).executors && id !in w.executors
    ensures event.Open? && event.id == id
  {
  }

  ghost predicate AllOnTerms(w: World) {
    forall id <- w.executors :: OnTerms(w.rows, w.executors[id])
  }

  lemma NextOnTerms(w: World, event: Event, w': World)
    requires Inv(w) && AllOnTerms(w) && w' == Next(w, event) && Inv(w') && Grows(w.rows, w'.rows)
    ensures AllOnTerms(w')
  {
    forall id <- w'.executors ensures OnTerms(w'.rows, w'.executors[id]) {
      if id in w.executors {
        StepKeepsTerms(w, event, id);
        TermsSurvive(w.rows, w'.rows, w.executors[id], w'.executors[id]);
      } else {
        OnlyOpenAdds(w, event, id);
        OpenOnTerms(w, event);
      }
    }
  }

  // Along every run, however often an operation is reopened, each of its
  // executors has the deadline and the limit that the operation was created with.
  lemma {:induction false} TermsAreKept(w: World, events: seq<Event>)
    requires Inv(w) && AllOnTerms(w)
    ensures AllOnTerms(Run(w, events))
    decreases |events|
  {
    if events != [] {
      NextKeeps(w, events[0]);
      NextOnTerms(w, events[0], Next(w, events[0]));
      TermsAreKept(Next(w, events[0]), events[1..]);
    }
  }

  // Exactly when an executor of a run is granted an allowance.
  lemma ClaimSucceedsExactlyWhen(w: World, id: nat, x: Allowance, probe: Probe, weather: Weather)
    requires Inv(w) && id in w.executors
    ensures var e := w.executors[id];
            var stored := w.rows.operations[e.budget.operationId];
            Claimed(e, w.rows, x, probe, weather).outcome.Granted? <==>
              && ValidAllowance(x) && !Holds(e.budget.allowances, x)
              && !probe.cancelled && probe.now < e.budget.deadline && e.budget.RequestCount() < e.budget.maxAttempts
              && !e.journal.failed && e.journal.state == Some(stored) && stored.Decodes() && weather.Clear?
  {
  }
}
