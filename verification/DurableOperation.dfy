// Several executors, crashes and reopenings over one shared table: what every
// interleaving of journal and budget steps keeps
// (app/analysis/model_journal.py, app/analysis/model_execution.py).

module DurableOperation {
  import opened Wrappers
  import opened ModelJournal
  import opened ModelExecution

  // The table, the live executors, the requests that executors were allowed to
  // send and the allowances they were granted, in order.
  datatype World = World(
    rows: Rows,
    executors: map<nat, Executor>,
    sent: seq<RequestKey>,
    grants: seq<(string, Allowance)>)

  datatype Event =
    | Open(id: nat, target: string, operationId: string, maxAttempts: nat, elapsed: real, now: real, weather: Weather)
    | Crash(id: nat)
    | Send(id: nat, request: Request, now: real, weather: Weather)
    | Receive(id: nat, usage: Usage, weather: Weather)
    | StoreSearch(id: nat, evidence: string, weather: Weather)
    | Finish(id: nat, usage: Usage, weather: Weather)
    | ClaimAllowance(id: nat, allowance: Allowance, probe: Probe, weather: Weather)
    | UseProtocol(id: nat, route: Route, initial: Protocol, weather: Weather)
    | Downgrade(id: nat, route: Route, first: Weather, second: Weather)

  const START := World(Rows(map[], map[]), map[], [], [])

  // A request is under way between its registration and its ending.
  predicate InFlight(e: Executor) {
    e.journal.state.Some? && e.budget.RequestCount() + 1 == e.journal.state.value.requestCount
  }

  function Put<T>(w: World, id: nat, step: Step<T>): World {
    w.(rows := step.rows, executors := w.executors[id := step.executor])
  }

  function Next(w: World, event: Event): World {
    match event
    case Open(id, target, operationId, maxAttempts, elapsed, now, weather) =>
      if id in w.executors || !(1 <= maxAttempts <= MAX_REQUESTS) || elapsed <= 0.0 then w
      else
        var w1 := Opened(Journal(Some(target), false, None), w.rows, operationId, maxAttempts, elapsed, now, weather);
        var w' := w.(rows := w1.rows);
        if w1.result.Ok? && w1.journal.state.Some? then
          w'.(executors := w.executors[id := Resumed(w1.journal, w1.journal.state.value)])
        else w'
    case Crash(id) =>
      w.(executors := w.executors - {id})
    case Send(id, request, now, weather) =>
      if id !in w.executors then w
      else
        var e := w.executors[id];
        var step := RequestStarted(e, w.rows, request, now, weather);
        var w' := Put(w, id, step);
        if step.outcome.Ok? then w'.(sent := w.sent + [(e.budget.operationId, e.budget.RequestCount() + 1)]) else w'
    case Receive(id, usage, weather) =>
      if id !in w.executors || !InFlight(w.executors[id]) then w
      else Put(w, id, ReceiptSaved(w.executors[id], w.rows, usage, weather))
    case StoreSearch(id, evidence, weather) =>
      if id !in w.executors || !InFlight(w.executors[id]) then w
      else Put(w, id, EvidenceSaved(w.executors[id], w.rows, evidence, weather))
    case Finish(id, usage, weather) =>
      if id !in w.executors || !InFlight(w.executors[id]) then w
      else Put(w, id, Recorded(w.executors[id], w.rows, w.executors[id].budget.RequestCount() + 1, usage, weather))
    case ClaimAllowance(id, allowance, probe, weather) =>
      if id !in w.executors then w
      else
        var e := w.executors[id];
        var step := Claimed(e, w.rows, allowance, probe, weather);
        var w' := Put(w, id, step);
        if step.outcome.Granted? then w'.(grants := w.grants + [(e.budget.operationId, allowance)]) else w'
    case UseProtocol(id, route, initial, weather) =>
      if id !in w.executors then w
      else Put(w, id, Negotiated(w.executors[id], w.rows, route, initial, weather))
    case Downgrade(id, route, first, second) =>
      if id !in w.executors then w
      else Put(w, id, Downgraded(w.executors[id], w.rows, route, first, second))
  }

  function Run(w: World, events: seq<Event>): World
    decreases |events|
  {
    if events == [] then w else Run(Next(w, events[0]), events[1..])
  }

  // ----- Invariants

  // The records of an operation are numbered exactly 1..k and k is within the grant.
  ghost predicate Numbered(rows: Rows, operationId: string)
    requires operationId in rows.operations
  {
    var stored := rows.operations[operationId];
    && stored.operationId == operationId
    && stored.requestCount <= stored.maxAttempts <= MAX_REQUESTS
    && forall n: nat :: (operationId, n) in rows.requests <==> 1 <= n <= stored.requestCount
  }

  ghost predicate RowsOk(rows: Rows) {
    && (forall id <- rows.operations :: Numbered(rows, id))
    && (forall key <- rows.requests ::
          && key.0 in rows.operations
          && RecordMatches(rows, key.0, key.1, Some(rows.operations[key.0].target)))
  }

  // What an executor remembers is a past state of its operation.
  ghost predicate ExecutorOk(rows: Rows, e: Executor) {
    && e.journal.state.Some?
    && var remembered := e.journal.state.value;
       && remembered.operationId == e.budget.operationId
       && remembered.operationId in rows.operations
       && Past(remembered, rows.operations[remembered.operationId])
       && e.journal.target == Some(remembered.target)
       && e.budget.maxAttempts == remembered.maxAttempts
       && Extends(remembered.allowances, e.budget.allowances)
       && (e.budget.RequestCount() == remembered.requestCount || InFlight(e))
  }

  ghost predicate Past(before: OperationState, after: OperationState) {
    && before.(requestCount := 0, allowances := after.allowances) == after.(requestCount := 0)
    && before.requestCount <= after.requestCount
    && Extends(before.allowances, after.allowances)
  }

  // Nothing granted or recorded is ever taken back.
  ghost predicate Grows(rows: Rows, rows': Rows) {
    && (forall id <- rows.operations :: id in rows'.operations && Past(rows.operations[id], rows'.operations[id]))
    && (forall key <- rows.requests :: key in rows'.requests && Successor(rows.requests[key], rows'.requests[key]))
  }

  // A record keeps its identity, and a finished one never changes.
  ghost predicate Successor(r: RequestRecord, r': RequestRecord) {
    && r'.(state := r.state, usage := r.usage, search := r.search) == r
    && (r.state.Finished? ==> r' == r)
  }

  ghost predicate Unrepeated<T>(s: seq<T>) {
    forall i, j | 0 <= i < j < |s| :: s[i] != s[j]
  }

  ghost predicate Inv(w: World) {
    && RowsOk(w.rows)
    && (forall id <- w.executors :: ExecutorOk(w.rows, w.executors[id]))
    && Unrepeated(w.sent) && Unrepeated(w.grants)
    && (forall key <- w.sent :: key in w.rows.requests)
    && (forall g <- w.grants :: g.0 in w.rows.operations && Holds(w.rows.operations[g.0].allowances, g.1))
  }

  // ----- Each write keeps the table well formed and only grows it

  lemma GrowsTransitive(a: Rows, b: Rows, c: Rows)
    requires Grows(a, b) && Grows(b, c)
    ensures Grows(a, c)
  {
    forall id <- a.operations ensures id in c.operations && Past(a.operations[id], c.operations[id]) {
      ExtendsTransitive(a.operations[id].allowances, b.operations[id].allowances, c.operations[id].allowances);
    }
    forall key <- a.requests ensures key in c.requests && Successor(a.requests[key], c.requests[key]) {
      assert Successor(a.requests[key], b.requests[key]) && Successor(b.requests[key], c.requests[key]);
    }
  }

  lemma GrowsReflexive(rows: Rows)
    ensures Grows(rows, rows)
  {
  }

  // An executor may come to remember exactly what is stored.
  lemma ExecutorCatchesUp(rows: Rows, e: Executor, journal: Journal)
    requires ExecutorOk(rows, e) && e.budget.operationId in rows.operations
    requires journal.target == e.journal.target
    requires var stored := rows.operations[e.budget.operationId];
             && journal.state == Some(stored)
             && Extends(stored.allowances, e.budget.allowances)
             && e.budget.RequestCount() <= stored.requestCount <= e.budget.RequestCount() + 1
    ensures ExecutorOk(rows, e.(journal := journal))
  {
  }

  lemma ExecutorSurvives(rows: Rows, rows': Rows, e: Executor)
    requires ExecutorOk(rows, e) && Grows(rows, rows')
    ensures ExecutorOk(rows', e)
  {
    var id := e.budget.operationId;
    ExtendsTransitive(e.journal.state.value.allowances, rows.operations[id].allowances, rows'.operations[id].allowances);
  }

  // Replacing the stored operation by a later state, with the request records to match.
  lemma ReplaceOperation(rows: Rows, next: OperationState)
    requires RowsOk(rows) && next.operationId in rows.operations
    requires Past(rows.operations[next.operationId], next)
    requires next.requestCount == rows.operations[next.operationId].requestCount
    ensures var rows' := rows.(operations := rows.operations[next.operationId := next]);
            RowsOk(rows') && Grows(rows, rows')
  {
    var rows' := rows.(operations := rows.operations[next.operationId := next]);
    assert forall id <- rows.operations :: Numbered(rows, id);
  }

  // A save either leaves the table alone or stores the new allowances in place
  // of the remembered operation.
  ghost predicate SaveOutcome(e: Executor, rows: Rows, w: Write)
    requires e.journal.state.Some?
  {
    var next := e.journal.state.value.(allowances := e.budget.allowances);
    && w.journal.target == e.journal.target
    && w.journal.state == (if w.result.Ok? then Some(next) else e.journal.state)
    && (if w.rows == rows && !w.result.Ok? then true else
          && Current(e.journal, rows, next.operationId)
          && w.rows == rows.(operations := rows.operations[next.operationId := next]))
  }

  lemma SaveCases(rows: Rows, e: Executor, weather: Weather)
    requires e.journal.state.Some?
    ensures SaveOutcome(e, rows, SaveLocal(e, rows, weather))
  {
  }

  lemma SaveKeeps(rows: Rows, e: Executor, weather: Weather)
    requires RowsOk(rows) && ExecutorOk(rows, e)
    ensures var w := SaveLocal(e, rows, weather);
            && RowsOk(w.rows) && Grows(rows, w.rows) && ExecutorOk(w.rows, e.(journal := w.journal))
            && (w.result.Ok? ==> w.rows.operations[e.budget.operationId].allowances == e.budget.allowances
                                 && Current(e.journal, rows, e.budget.operationId))
  {
    SaveCases(rows, e, weather);
    SaveOutcomeKeeps(rows, e, SaveLocal(e, rows, weather));
  }

  lemma SaveOutcomeKeeps(rows: Rows, e: Executor, w: Write)
    requires RowsOk(rows) && ExecutorOk(rows, e) && SaveOutcome(e, rows, w)
    ensures RowsOk(w.rows) && Grows(rows, w.rows) && ExecutorOk(w.rows, e.(journal := w.journal))
    ensures w.result.Ok? ==> w.rows.operations[e.budget.operationId].allowances == e.budget.allowances
                             && Current(e.journal, rows, e.budget.operationId)
  {
    if w.rows == rows && !w.result.Ok? {
      GrowsReflexive(rows);
    } else {
      ReplaceOperation(rows, e.journal.state.value.(allowances := e.budget.allowances));
      ExecutorSurvives(rows, w.rows, e);
      if w.result.Ok? {
        ExecutorCatchesUp(w.rows, e, w.journal);
      }
    }
  }

  function Registered(rows: Rows, next: OperationState, record: RequestRecord): Rows {
    Rows(rows.operations[next.operationId := next], rows.requests[(next.operationId, next.requestCount) := record])
  }

  // Registering request number k + 1 of an operation that has k.
  lemma RegisterRequest(rows: Rows, next: OperationState, record: RequestRecord)
    requires RowsOk(rows) && next.operationId in rows.operations
    requires var stored := rows.operations[next.operationId];
             next == stored.(requestCount := stored.requestCount + 1) && next.requestCount <= next.maxAttempts
    requires record.operationId == next.operationId && record.number == next.requestCount
    requires record.target == Some(next.target)
    ensures RowsOk(Registered(rows, next, record)) && Grows(rows, Registered(rows, next, record))
  {
    var key := (next.operationId, next.requestCount);
    var rows' := Registered(rows, next, record);
    assert Numbered(rows, next.operationId);
    assert key !in rows.requests;
    forall id <- rows'.operations ensures Numbered(rows', id) {
      assert Numbered(rows, id);
    }
    forall k <- rows'.requests
      ensures k.0 in rows'.operations && RecordMatches(rows', k.0, k.1, Some(rows'.operations[k.0].target))
    {
      if k != key {
        assert RecordMatches(rows, k.0, k.1, Some(rows.operations[k.0].target));
      }
    }
  }

  // A start either leaves the table alone or registers the next number of the
  // stored operation, which is the remembered one.
  ghost predicate StartOutcome(j: Journal, rows: Rows, record: RequestRecord, w: Write)
    requires j.state.Some?
  {
    var state := j.state.value;
    var next := state.(requestCount := record.number);
    && w.journal.target == j.target
    && w.journal.state == (if w.result.Ok? then Some(next) else j.state)
    && (if w.rows == rows then !w.result.Ok? else
          && Current(j, rows, state.operationId) && record.number == state.requestCount + 1 <= state.maxAttempts
          && (state.operationId, record.number) !in rows.requests && w.rows == Registered(rows, next, record))
  }

  lemma StartCases(j: Journal, rows: Rows, number: nat, request: Request, now: real, weather: Weather)
    requires j.state.Some?
    ensures var id := j.state.value.operationId;
            StartOutcome(j, rows, RequestRecord(id, number, j.target, request, Unconfirmed, NO_USAGE, None),
                         Started(j, rows, id, number, request, now, weather))
  {
    var id := j.state.value.operationId;
    var next := j.state.value.(requestCount := number);
    var record := RequestRecord(id, number, j.target, request, Unconfirmed, NO_USAGE, None);
    if (id, number) !in rows.requests {
      assert (id, number) in Registered(rows, next, record).requests;
    }
  }

  lemma StartOutcomeKeeps(rows: Rows, e: Executor, record: RequestRecord, w: Write)
    requires RowsOk(rows) && ExecutorOk(rows, e)
    requires record.operationId == e.budget.operationId && record.target == e.journal.target
    requires record.number == e.budget.RequestCount() + 1
    requires StartOutcome(e.journal, rows, record, w)
    ensures RowsOk(w.rows) && Grows(rows, w.rows) && ExecutorOk(w.rows, e.(journal := w.journal))
    ensures w.result.Ok? ==> (record.operationId, record.number) !in rows.requests
                             && (record.operationId, record.number) in w.rows.requests
  {
    if w.rows == rows {
      GrowsReflexive(rows);
    } else {
      RegisterRequest(rows, e.journal.state.value.(requestCount := record.number), record);
      ExecutorSurvives(rows, w.rows, e);
      if w.result.Ok? {
        ExecutorCatchesUp(w.rows, e, w.journal);
      }
    }
  }

  // An update either leaves the table alone or replaces a record by a successor.
  ghost predicate UpdateOutcome(j: Journal, rows: Rows, key: RequestKey, w: Write) {
    && w.journal.state == j.state && w.journal.target == j.target
    && (if w.rows == rows then true else
          && key in rows.requests && key in w.rows.requests
          && Successor(rows.requests[key], w.rows.requests[key])
          && w.rows == rows.(requests := rows.requests[key := w.rows.requests[key]]))
  }

  lemma UpdateCases(rows: Rows, j: Journal, id: string, number: nat, state: RecordState, usage: Usage,
                    weather: Weather)
    ensures UpdateOutcome(j, rows, (id, number), Updated(j, rows, id, number, state, usage, weather))
  {
  }

  lemma CreateOperation(rows: Rows, state: OperationState)
    requires RowsOk(rows) && state.operationId !in rows.operations
    requires state.requestCount == 0 && state.Decodes()
    requires forall key <- rows.requests :: key.0 != state.operationId
    ensures var rows' := rows.(operations := rows.operations[state.operationId := state]);
            RowsOk(rows') && Grows(rows, rows')
  {
    var rows' := rows.(operations := rows.operations[state.operationId := state]);
    forall id <- rows'.operations ensures Numbered(rows', id) {
      if id in rows.operations {
        assert Numbered(rows, id);
      } else {
        assert forall n: nat :: (id, n) !in rows.requests;
      }
    }
    forall k <- rows'.requests
      ensures k.0 in rows'.operations && RecordMatches(rows', k.0, k.1, Some(rows'.operations[k.0].target))
    {
      assert RecordMatches(rows, k.0, k.1, Some(rows.operations[k.0].target));
    }
  }

  lemma OpenKeeps(rows: Rows, target: string, id: string, maxAttempts: nat, elapsed: real, now: real, weather: Weather)
    requires RowsOk(rows)
    ensures var w := Opened(Journal(Some(target), false, None), rows, id, maxAttempts, elapsed, now, weather);
            && RowsOk(w.rows) && Grows(rows, w.rows)
            && (w.result.Ok? ==> w.journal.state.Some? && ExecutorOk(w.rows, Resumed(w.journal, w.journal.state.value)))
  {
    var w := Opened(Journal(Some(target), false, None), rows, id, maxAttempts, elapsed, now, weather);
    var state := NewState(id, target, maxAttempts, elapsed, now);
    if w.rows == rows {
      GrowsReflexive(rows);
    } else {
      CreateOperation(rows, state);
    }
  }

  // ----- Each step of an executor

  // What a step of one executor may do to the table and to that executor.
  ghost predicate StepOk(rows: Rows, e: Executor, rows': Rows, e': Executor) {
    && RowsOk(rows') && Grows(rows, rows') && ExecutorOk(rows', e')
    && e'.budget.operationId == e.budget.operationId
  }

  // Saving changed allowances; a success shows that the stored ones were the remembered ones.
  lemma SaveChanged(rows: Rows, e: Executor, a: Allowances, weather: Weather)
    requires RowsOk(rows) && ExecutorOk(rows, e) && Extends(e.budget.allowances, a)
    ensures var e' := e.(budget := e.budget.(allowances := a));
            var w := SaveLocal(e', rows, weather);
            var id := e.budget.operationId;
            && StepOk(rows, e, w.rows, e'.(journal := w.journal))
            && (w.result.Ok? ==> id in rows.operations && Extends(rows.operations[id].allowances, e.budget.allowances)
                                 && id in w.rows.operations && w.rows.operations[id].allowances == a)
  {
    var e' := e.(budget := e.budget.(allowances := a));
    SaveKeeps(rows, e', weather);
  }

  lemma ClaimKeeps(rows: Rows, e: Executor, x: Allowance, probe: Probe, weather: Weather)
    requires RowsOk(rows) && ExecutorOk(rows, e)
    ensures var s := Claimed(e, rows, x, probe, weather);
            var id := e.budget.operationId;
            && StepOk(rows, e, s.rows, s.executor)
            && (s.outcome.Granted? ==> id in rows.operations && !Holds(rows.operations[id].allowances, x)
                                       && id in s.rows.operations && Holds(s.rows.operations[id].allowances, x))
  {
    if ValidAllowance(x) && !Holds(e.budget.allowances, x) && Interruption(e.budget, probe, true).None? {
      ClaimWrites(rows, e, x, weather);
    } else {
      GrowsReflexive(rows);
    }
  }

  lemma ClaimWrites(rows: Rows, e: Executor, x: Allowance, weather: Weather)
    requires RowsOk(rows) && ExecutorOk(rows, e) && !Holds(e.budget.allowances, x)
    ensures var e' := e.(budget := e.budget.(allowances := Granting(e.budget.allowances, x)));
            var w := SaveLocal(e', rows, weather);
            var id := e.budget.operationId;
            && StepOk(rows, e, w.rows, e'.(journal := w.journal))
            && (w.result.Ok? ==> id in rows.operations && !Holds(rows.operations[id].allowances, x)
                                 && id in w.rows.operations && Holds(w.rows.operations[id].allowances, x))
  {
    var id := e.budget.operationId;
    SaveChanged(rows, e, Granting(e.budget.allowances, x), weather);
  }

  lemma NegotiateKeeps(rows: Rows, e: Executor, route: Route, initial: Protocol, weather: Weather)
    requires RowsOk(rows) && ExecutorOk(rows, e)
    ensures var s := Negotiated(e, rows, route, initial, weather); StepOk(rows, e, s.rows, s.executor)
  {
    GrowsReflexive(rows);
    if route !in e.budget.allowances.protocols {
      SaveChanged(rows, e, SetProtocol(e.budget, route, initial).allowances, weather);
    }
  }

  lemma DowngradeKeeps(rows: Rows, e: Executor, route: Route, first: Weather, second: Weather)
    requires RowsOk(rows) && ExecutorOk(rows, e)
    ensures var s := Downgraded(e, rows, route, first, second); StepOk(rows, e, s.rows, s.executor)
  {
    var known := Negotiated(e, rows, route, JsonSchema, first);
    NegotiateKeeps(rows, e, route, JsonSchema, first);
    var b := known.executor.budget;
    if known.outcome.Ok? && !b.allowances.protocols[route].Text? {
      var a := SetProtocol(b, route, Lower(b.allowances.protocols[route])).allowances;
      SaveChanged(known.rows, known.executor, a, second);
      var s := Downgraded(e, rows, route, first, second);
      GrowsTransitive(rows, known.rows, s.rows);
    }
  }

  // ----- Each event

  lemma PutKeeps(w: World, id: nat, rows': Rows, e': Executor)
    requires Inv(w) && RowsOk(rows') && Grows(w.rows, rows') && ExecutorOk(rows', e')
    ensures Inv(w.(rows := rows', executors := w.executors[id := e']))
  {
    var w' := w.(rows := rows', executors := w.executors[id := e']);
    forall k <- w'.executors ensures ExecutorOk(rows', w'.executors[k]) {
      if k != id {
        ExecutorSurvives(w.rows, rows', w.executors[k]);
      }
    }
    forall g <- w.grants ensures g.0 in rows'.operations && Holds(rows'.operations[g.0].allowances, g.1) {
      ExtendsKeepsHeld(w.rows.operations[g.0].allowances, rows'.operations[g.0].allowances, g.1);
    }
  }

  lemma TableKeeps(w: World, rows': Rows)
    requires Inv(w) && RowsOk(rows') && Grows(w.rows, rows')
    ensures Inv(w.(rows := rows'))
  {
    forall k <- w.executors ensures ExecutorOk(rows', w.executors[k]) {
      ExecutorSurvives(w.rows, rows', w.executors[k]);
    }
    forall g <- w.grants ensures g.0 in rows'.operations && Holds(rows'.operations[g.0].allowances, g.1) {
      ExtendsKeepsHeld(w.rows.operations[g.0].allowances, rows'.operations[g.0].allowances, g.1);
    }
  }

  lemma AppendGrant(w: World, g: (string, Allowance))
    requires Inv(w) && g !in w.grants
    requires g.0 in w.rows.operations && Holds(w.rows.operations[g.0].allowances, g.1)
    ensures Inv(w.(grants := w.grants + [g]))
  {
  }

  lemma OpenEventKeeps(w: World, event: Event)
    requires Inv(w) && event.Open?
    ensures Inv(Next(w, event)) && Grows(w.rows, Next(w, event).rows)
  {
    GrowsReflexive(w.rows);
    var j := Journal(Some(event.target), false, None);
    var w1 := Opened(j, w.rows, event.operationId, event.maxAttempts, event.elapsed, event.now, event.weather);
    OpenKeeps(w.rows, event.target, event.operationId, event.maxAttempts, event.elapsed, event.now, event.weather);
    TableKeeps(w, w1.rows);
    if w1.result.Ok? {
      PutKeeps(w, event.id, w1.rows, Resumed(w1.journal, w1.journal.state.value));
    }
  }

  function FirstRecord(e: Executor, request: Request): RequestRecord {
    RequestRecord(e.budget.operationId, e.budget.RequestCount() + 1, e.journal.target, request, Unconfirmed, NO_USAGE, None)
  }

  lemma StartStepCases(rows: Rows, e: Executor, request: Request, now: real, weather: Weather)
    requires e.journal.state.Some? && e.journal.state.value.operationId == e.budget.operationId
    ensures var s := RequestStarted(e, rows, request, now, weather);
            && s.executor == e.(journal := s.executor.journal)
            && StartOutcome(e.journal, rows, FirstRecord(e, request), Write(s.executor.journal, s.rows, s.outcome))
  {
    StartCases(e.journal, rows, e.budget.RequestCount() + 1, request, now, weather);
  }

  lemma StartStepKeeps(rows: Rows, e: Executor, request: Request, s: Step<Result>)
    requires RowsOk(rows) && ExecutorOk(rows, e) && s.executor == e.(journal := s.executor.journal)
    requires StartOutcome(e.journal, rows, FirstRecord(e, request), Write(s.executor.journal, s.rows, s.outcome))
    ensures var key := (e.budget.operationId, e.budget.RequestCount() + 1);
            && StepOk(rows, e, s.rows, s.executor)
            && (s.outcome.Ok? ==> key !in rows.requests && key in s.rows.requests)
  {
    StartOutcomeKeeps(rows, e, FirstRecord(e, request), Write(s.executor.journal, s.rows, s.outcome));
  }

  // A request start: the number it registers is new.
  lemma StartKeeps(rows: Rows, e: Executor, request: Request, now: real, weather: Weather)
    requires RowsOk(rows) && ExecutorOk(rows, e)
    ensures var s := RequestStarted(e, rows, request, now, weather);
            var key := (e.budget.operationId, e.budget.RequestCount() + 1);
            && StepOk(rows, e, s.rows, s.executor)
            && (s.outcome.Ok? ==> key !in rows.requests && key in s.rows.requests)
  {
    StartStepCases(rows, e, request, now, weather);
    StartStepKeeps(rows, e, request, RequestStarted(e, rows, request, now, weather));
  }

  lemma SendApplies(w: World, id: nat, s: Step<Result>, key: RequestKey)
    requires Inv(w) && id in w.executors && StepOk(w.rows, w.executors[id], s.rows, s.executor)
    requires s.outcome.Ok? ==> key !in w.rows.requests && key in s.rows.requests
    ensures var w' := Put(w, id, s); Inv(if s.outcome.Ok? then w'.(sent := w.sent + [key]) else w')
  {
    PutKeeps(w, id, s.rows, s.executor);
  }

  lemma SendEventKeeps(w: World, event: Event)
    requires Inv(w) && event.Send?
    ensures Inv(Next(w, event)) && Grows(w.rows, Next(w, event).rows)
  {
    if event.id in w.executors {
      var e := w.executors[event.id];
      StartKeeps(w.rows, e, event.request, event.now, event.weather);
      SendApplies(w, event.id, RequestStarted(e, w.rows, event.request, event.now, event.weather),
                  (e.budget.operationId, e.budget.RequestCount() + 1));
    } else {
      GrowsReflexive(w.rows);
    }
  }

  // An executor with a request under way always has room to record its ending.
  lemma HasRoom(rows: Rows, e: Executor)
    requires RowsOk(rows) && ExecutorOk(rows, e) && InFlight(e)
    ensures e.budget.RequestCount() < e.budget.maxAttempts
  {
    assert Numbered(rows, e.budget.operationId);
  }

  // What an update does to one executor: it counts the attempt or not.
  ghost predicate UpdateStep(rows: Rows, e: Executor, s: Step<Result>, counted: bool) {
    && s.executor == Executor(if counted then e.budget.(finished := e.budget.finished + 1) else e.budget, s.executor.journal)
    && UpdateOutcome(e.journal, rows, (e.budget.operationId, e.budget.RequestCount() + 1),
                     Write(s.executor.journal, s.rows, s.outcome))
  }

  lemma UpdateStepKeeps(rows: Rows, e: Executor, s: Step<Result>, counted: bool)
    requires RowsOk(rows) && ExecutorOk(rows, e) && InFlight(e) && UpdateStep(rows, e, s, counted)
    ensures StepOk(rows, e, s.rows, s.executor) && s.rows.operations == rows.operations
  {
    ExecutorSurvives(rows, s.rows, e);
  }

  lemma ReceiptCases(rows: Rows, e: Executor, usage: Usage, weather: Weather)
    ensures UpdateStep(rows, e, ReceiptSaved(e, rows, usage, weather), false)
  {
    UpdateCases(rows, e.journal, e.budget.operationId, e.budget.RequestCount() + 1, ResponseReceived, usage, weather);
  }

  lemma EvidenceCases(rows: Rows, e: Executor, evidence: string, weather: Weather)
    ensures UpdateStep(rows, e, EvidenceSaved(e, rows, evidence, weather), false)
  {
  }

  lemma RecordCases(rows: Rows, e: Executor, usage: Usage, weather: Weather)
    requires e.budget.RequestCount() < e.budget.maxAttempts
    ensures UpdateStep(rows, e, Recorded(e, rows, e.budget.RequestCount() + 1, usage, weather), true)
  {
    UpdateCases(rows, e.journal, e.budget.operationId, e.budget.RequestCount() + 1, Finished, usage, weather);
  }

  // A step of one executor, seen from the world.
  lemma PutStep<T>(w: World, id: nat, s: Step<T>)
    requires Inv(w) && id in w.executors && StepOk(w.rows, w.executors[id], s.rows, s.executor)
    ensures Inv(Put(w, id, s)) && Grows(w.rows, Put(w, id, s).rows)
  {
    PutKeeps(w, id, s.rows, s.executor);
  }

  lemma UpdatePut(w: World, id: nat, s: Step<Result>, counted: bool)
    requires Inv(w) && id in w.executors && InFlight(w.executors[id])
    requires UpdateStep(w.rows, w.executors[id], s, counted)
    ensures Inv(Put(w, id, s)) && Grows(w.rows, Put(w, id, s).rows)
  {
    UpdateStepKeeps(w.rows, w.executors[id], s, counted);
    PutStep(w, id, s);
  }

  lemma ReceiveEventKeeps(w: World, event: Event)
    requires Inv(w) && event.Receive? && event.id in w.executors && InFlight(w.executors[event.id])
    ensures Inv(Next(w, event)) && Grows(w.rows, Next(w, event).rows)
  {
    var e := w.executors[event.id];
    ReceiptCases(w.rows, e, event.usage, event.weather);
    UpdatePut(w, event.id, ReceiptSaved(e, w.rows, event.usage, event.weather), false);
  }

  lemma StoreSearchEventKeeps(w: World, event: Event)
    requires Inv(w) && event.StoreSearch? && event.id in w.executors && InFlight(w.executors[event.id])
    ensures Inv(Next(w, event)) && Grows(w.rows, Next(w, event).rows)
  {
    var e := w.executors[event.id];
    EvidenceCases(w.rows, e, event.evidence, event.weather);
    UpdatePut(w, event.id, EvidenceSaved(e, w.rows, event.evidence, event.weather), false);
  }

  lemma FinishUpdates(w: World, id: nat, usage: Usage, weather: Weather)
    requires id in w.executors && InFlight(w.executors[id])
    requires w.executors[id].budget.RequestCount() < w.executors[id].budget.maxAttempts
    ensures exists s: Step<Result> :: UpdateStep(w.rows, w.executors[id], s, true) && Next(w, Finish(id, usage, weather)) == Put(w, id, s)
  {
    var e := w.executors[id];
    RecordCases(w.rows, e, usage, weather);
    var s := Recorded(e, w.rows, e.budget.RequestCount() + 1, usage, weather);
    assert Next(w, Finish(id, usage, weather)) == Put(w, id, s);
  }

  lemma FinishEventKeeps(w: World, event: Event)
    requires Inv(w) && event.Finish? && event.id in w.executors && InFlight(w.executors[event.id])
    ensures Inv(Next(w, event)) && Grows(w.rows, Next(w, event).rows)
  {
    HasRoom(w.rows, w.executors[event.id]);
    FinishUpdates(w, event.id, event.usage, event.weather);
    var s: Step<Result> :| UpdateStep(w.rows, w.executors[event.id], s, true) && Next(w, event) == Put(w, event.id, s);
    UpdatePut(w, event.id, s, true);
  }

  lemma ClaimEventKeeps(w: World, event: Event)
    requires Inv(w) && event.ClaimAllowance?
    ensures Inv(Next(w, event)) && Grows(w.rows, Next(w, event).rows)
  {
    GrowsReflexive(w.rows);
    if event.id in w.executors {
      var e := w.executors[event.id];
      var s := Claimed(e, w.rows, event.allowance, event.probe, event.weather);
      ClaimKeeps(w.rows, e, event.allowance, event.probe, event.weather);
      PutKeeps(w, event.id, s.rows, s.executor);
      if s.outcome.Granted? {
        AppendGrant(Put(w, event.id, s), (e.budget.operationId, event.allowance));
      }
    }
  }

  lemma ProtocolEventKeeps(w: World, event: Event)
    requires Inv(w) && (event.UseProtocol? || event.Downgrade?)
    ensures Inv(Next(w, event)) && Grows(w.rows, Next(w, event).rows)
  {
    GrowsReflexive(w.rows);
    if event.id in w.executors {
      var e := w.executors[event.id];
      if event.UseProtocol? {
        var s := Negotiated(e, w.rows, event.route, event.initial, event.weather);
        NegotiateKeeps(w.rows, e, event.route, event.initial, event.weather);
        PutKeeps(w, event.id, s.rows, s.executor);
      } else {
        var s := Downgraded(e, w.rows, event.route, event.first, event.second);
        DowngradeKeeps(w.rows, e, event.route, event.first, event.second);
        PutKeeps(w, event.id, s.rows, s.executor);
      }
    }
  }

  lemma NextKeeps(w: World, event: Event)
    requires Inv(w)
    ensures Inv(Next(w, event)) && Grows(w.rows, Next(w, event).rows)
  {
    GrowsReflexive(w.rows);
    match event
    case Open(_, _, _, _, _, _, _) => OpenEventKeeps(w, event);
    case Crash(_) =>
    case Send(_, _, _, _) => SendEventKeeps(w, event);
    case Receive(id, _, _) =>
      if id in w.executors && InFlight(w.executors[id]) {
        ReceiveEventKeeps(w, event);
      }
    case StoreSearch(id, _, _) =>
      if id in w.executors && InFlight(w.executors[id]) {
        StoreSearchEventKeeps(w, event);
      }
    case Finish(id, _, _) =>
      if id in w.executors && InFlight(w.executors[id]) {
        FinishEventKeeps(w, event);
      }
    case ClaimAllowance(_, _, _, _) => ClaimEventKeeps(w, event);
    case UseProtocol(_, _, _, _) => ProtocolEventKeeps(w, event);
    case Downgrade(_, _, _, _) => ProtocolEventKeeps(w, event);
  }

  // ----- Whole runs

  lemma {:induction false} RunKeeps(w: World, events: seq<Event>)
    requires Inv(w)
    ensures Inv(Run(w, events)) && Grows(w.rows, Run(w, events).rows)
    decreases |events|
  {
    if events == [] {
      GrowsReflexive(w.rows);
    } else {
      NextKeeps(w, events[0]);
      RunKeeps(Next(w, events[0]), events[1..]);
      GrowsTransitive(w.rows, Next(w, events[0]).rows, Run(w, events).rows);
    }
  }

  lemma {:induction false} RunAppend(w: World, a: seq<Event>, b: seq<Event>)
    ensures Run(w, a + b) == Run(Run(w, a), b)
    decreases |a|
  {
    if a == [] {
      assert a + b == b;
    } else {
      assert (a + b)[1..] == a[1..] + b;
      RunAppend(Next(w, a[0]), a[1..], b);
    }
  }

  function SentFor(sent: seq<RequestKey>, id: string): seq<nat> {
    if sent == [] then []
    else SentFor(sent[..|sent| - 1], id)
         + if sent[|sent| - 1].0 == id then [sent[|sent| - 1].1] else []
  }

  lemma {:induction false} SentForExact(sent: seq<RequestKey>, id: string)
    requires Unrepeated(sent)
    ensures Unrepeated(SentFor(sent, id)) && forall k | 0 <= k < |SentFor(sent, id)| :: (id, SentFor(sent, id)[k]) in sent
  {
    if sent != [] {
      SentForExact(sent[..|sent| - 1], id);
    }
  }

  lemma {:induction false} SentForNobody(sent: seq<RequestKey>, id: string)
    requires forall key <- sent :: key.0 != id
    ensures SentFor(sent, id) == []
  {
    if sent != [] {
      SentForNobody(sent[..|sent| - 1], id);
    }
  }

  lemma {:induction false} UnrepeatedBounded(s: seq<nat>, max: nat)
    requires Unrepeated(s) && forall k | 0 <= k < |s| :: 1 <= s[k] <= max
    ensures |s| <= max
  {
    if s == [] {
    } else if max in s {
      var k :| 0 <= k < |s| && s[k] == max;
      var rest := s[..k] + s[k + 1..];
      assert forall i | 0 <= i < |rest| :: rest[i] == s[if i < k then i else i + 1];
      UnrepeatedBounded(rest, max - 1);
    } else {
      assert 1 <= s[0] <= max;
      UnrepeatedBounded(s, max - 1);
    }
  }

  // Over every run, the records of every operation are numbered exactly 1..k,
  // no number is sent twice, and no more requests are sent than were granted.
  lemma RequestsAreNumberedOnce(events: seq<Event>, id: string)
    ensures var w := Run(START, events);
            && Unrepeated(w.sent)
            && (id in w.rows.operations ==>
                  && Numbered(w.rows, id)
                  && |SentFor(w.sent, id)| <= w.rows.operations[id].requestCount <= w.rows.operations[id].maxAttempts)
            && (id !in w.rows.operations ==> SentFor(w.sent, id) == [] && forall n: nat :: (id, n) !in w.rows.requests)
  {
    RunKeeps(START, events);
    var w := Run(START, events);
    SentForExact(w.sent, id);
    if id in w.rows.operations {
      assert Numbered(w.rows, id);
      UnrepeatedBounded(SentFor(w.sent, id), w.rows.operations[id].requestCount);
    } else {
      SentForNobody(w.sent, id);
    }
  }

  // What an operation was granted when it was created never changes, its
  // requests and allowances only grow, its protocols only move down, and a
  // finished record is final.
  lemma LaterRowsExtendEarlier(events: seq<Event>, later: seq<Event>)
    ensures Grows(Run(START, events).rows, Run(START, events + later).rows)
  {
    RunKeeps(START, events);
    RunKeeps(Run(START, events), later);
    RunAppend(START, events, later);
  }

  // Over every run, an allowance of an operation is granted at most once,
  // whatever executors held it and however often it was reopened.
  lemma AllowancesAreGrantedOnce(events: seq<Event>)
    ensures var w := Run(START, events);
            && Unrepeated(w.grants)
            && forall g <- w.grants :: g.0 in w.rows.operations && Holds(w.rows.operations[g.0].allowances, g.1)
  {
    RunKeeps(START, events);
  }

  // Exactly when an operation of a run can be opened, and what its executor then
  // starts from: the stored state, whatever was asked for, or a fresh grant.
  lemma OpenSucceedsExactlyWhen(w: World, target: string, id: string, maxAttempts: nat, elapsed: real, now: real,
                                weather: Weather)
    requires Inv(w)
    ensures var answer := Opened(Journal(Some(target), false, None), w.rows, id, maxAttempts, elapsed, now, weather);
            && (answer.result.Ok? <==>
                  && weather.Clear?
                  && if id in w.rows.operations then w.rows.operations[id].Decodes() && w.rows.operations[id].target == target
                     else IsIdentifier(id) && IsName(target) && 1 <= maxAttempts <= MAX_REQUESTS)
            && (answer.result.Ok? && id in w.rows.operations ==>
                  answer.rows == w.rows && answer.journal.state == Some(w.rows.operations[id]))
            && (answer.result.Ok? && id !in w.rows.operations ==>
                  && id in answer.rows.operations && answer.journal.state == Some(answer.rows.operations[id])
                  && var granted := answer.rows.operations[id];
                     granted.requestCount == 0 && granted.maxAttempts == maxAttempts && granted.deadline == now + elapsed)
  {
    if id in w.rows.operations {
      var stored := w.rows.operations[id];
      assert Numbered(w.rows, id);
      forall n: nat | 1 <= n <= stored.requestCount ensures RecordMatches(w.rows, id, n, Some(stored.target)) {
        assert (id, n) in w.rows.requests;
      }
    }
  }

  // On any table, however damaged, an operation is not opened when a record of
  // its requests is missing or foreign, nor granted anew when records of it exist.
  lemma DamagedOperationIsRefused(rows: Rows, j: Journal, id: string, maxAttempts: nat, elapsed: real, now: real,
                                  weather: Weather, n: nat)
    requires if id in rows.operations then 1 <= n <= rows.operations[id].requestCount && !RecordMatches(rows, id, n, j.target)
             else (id, n) in rows.requests
    ensures var answer := Opened(j, rows, id, maxAttempts, elapsed, now, weather);
            !answer.result.Ok? && answer.rows == rows && answer.journal.state == j.state
  {
  }

  // A journal that has failed once never writes again and stays failed.
  lemma FailedJournalStops(rows: Rows, e: Executor, request: Request, usage: Usage, x: Allowance, probe: Probe,
                           now: real, weather: Weather)
    requires e.journal.failed && e.journal.state.Some?
    ensures var (started, received, ended) :=
              (RequestStarted(e, rows, request, now, weather), ReceiptSaved(e, rows, usage, weather),
               Recorded(e, rows, e.budget.RequestCount() + 1, usage, weather));
            var claimed := Claimed(e, rows, x, probe, weather);
            && started.rows == received.rows == ended.rows == claimed.rows == rows
            && started.executor.journal == received.executor.journal == e.journal
            && ended.executor.journal == claimed.executor.journal == e.journal
            && !started.outcome.Ok? && !received.outcome.Ok? && !ended.outcome.Ok? && !claimed.outcome.Granted?
  {
  }

  // Exactly when an executor of a run can register its next request.
  lemma StartSucceedsExactlyWhen(w: World, id: nat, request: Request, now: real, weather: Weather)
    requires Inv(w) && id in w.executors
    ensures var e := w.executors[id];
            var s := RequestStarted(e, w.rows, request, now, weather);
            var state := e.journal.state.value;
            s.outcome.Ok? <==>
              && request.Accepted() && IsIdentifier(state.operationId)
              && !e.journal.failed && Current(e.journal, w.rows, state.operationId) && !InFlight(e)
              && state.requestCount < state.maxAttempts && now < state.deadline && weather.Clear?
  {
    var e := w.executors[id];
    assert Numbered(w.rows, e.budget.operationId);
  }

  // Exactly when a start registers its request, also when the executor never
  // hears of it because the storage failed after the commit.
  lemma RegistersExactlyWhen(w: World, send: Event, operationId: string)
    requires Inv(w) && send.Send? && send.id in w.executors
    ensures var e := w.executors[send.id];
            var state := e.journal.state.value;
            Registers(w, send, operationId) <==>
              && e.budget.operationId == operationId
              && send.request.Accepted() && IsIdentifier(state.operationId)
              && !e.journal.failed && Current(e.journal, w.rows, state.operationId) && !InFlight(e)
              && state.requestCount < state.maxAttempts && send.now < state.deadline
              && (send.weather.Clear? || send.weather == StorageError(true))
  {
    var e := w.executors[send.id];
    assert Numbered(w.rows, e.budget.operationId);
    var s := RequestStarted(e, w.rows, send.request, send.now, send.weather);
    if s.rows != w.rows {
      StartCounts(w.rows, e, send.request, send.now, send.weather);
    } else {
      assert (e.budget.operationId, e.budget.RequestCount() + 1) in w.rows.requests
             || (e.budget.operationId, e.budget.RequestCount() + 1) !in s.rows.requests;
    }
  }

  // An executor that remembers anything but the stored operation registers nothing.
  lemma StaleExecutorIsFenced(w: World, id: nat, request: Request, now: real, weather: Weather)
    requires Inv(w) && id in w.executors
    requires w.executors[id].journal.state != Some(w.rows.operations[w.executors[id].budget.operationId])
    ensures var s := RequestStarted(w.executors[id], w.rows, request, now, weather);
            !s.outcome.Ok? && s.rows == w.rows
  {
    StartCases(w.executors[id].journal, w.rows, w.executors[id].budget.RequestCount() + 1, request, now, weather);
  }

  // ----- When the live count equals the stored count

  // After a recorded ending the two counts agree exactly when no later request
  // of the operation has been registered by somebody else.
  lemma CountsAgreeExactlyWhen(w: World, id: nat, usage: Usage, weather: Weather)
    requires Inv(w) && id in w.executors && InFlight(w.executors[id])
    ensures var operationId := w.executors[id].budget.operationId;
            var number := w.executors[id].budget.RequestCount() + 1;
            var w' := Next(w, Finish(id, usage, weather));
            && w'.executors[id].budget.RequestCount() == number
            && (w'.rows.operations[operationId].requestCount == number <==> (operationId, number + 1) !in w.rows.requests)
  {
    var e := w.executors[id];
    HasRoom(w.rows, e);
    FinishCounts(w, id, usage, weather);
  }

  // An ending counts the attempt and leaves the stored operations alone.
  lemma FinishCounts(w: World, id: nat, usage: Usage, weather: Weather)
    requires id in w.executors && InFlight(w.executors[id])
    requires w.executors[id].budget.RequestCount() < w.executors[id].budget.maxAttempts
    ensures var w' := Next(w, Finish(id, usage, weather));
            && id in w'.executors && w'.rows.operations == w.rows.operations
            && w'.executors[id].budget == w.executors[id].budget.(finished := w.executors[id].budget.finished + 1)
            && w'.executors[id].journal.state == w.executors[id].journal.state
  {
    var e := w.executors[id];
    RecordCases(w.rows, e, usage, weather);
  }

  // ----- The counts along a run

  // A request of the operation is registered, whether or not its executor hears of it.
  predicate Registers(w: World, event: Event, operationId: string) {
    && event.Send? && event.id in w.executors && w.executors[event.id].budget.operationId == operationId
    && RequestStarted(w.executors[event.id], w.rows, event.request, event.now, event.weather).rows != w.rows
  }

  function Registrations(w: World, events: seq<Event>, operationId: string): nat
    decreases |events|
  {
    if events == [] then 0
    else (if Registers(w, events[0], operationId) then 1 else 0) + Registrations(Next(w, events[0]), events[1..], operationId)
  }

  // No stored operation has a request more or less.
  ghost predicate CountsKept(rows: Rows, rows': Rows) {
    forall id <- rows.operations :: id in rows'.operations && rows'.operations[id].requestCount == rows.operations[id].requestCount
  }

  // An executor goes on waiting for the request it has registered.
  ghost predicate Waits(e: Executor, e': Executor) {
    && e'.budget.operationId == e.budget.operationId && e'.budget.RequestCount() == e.budget.RequestCount()
    && e.journal.state.Some? && e'.journal.state.Some?
    && e'.journal.state.value.requestCount == e.journal.state.value.requestCount
  }

  lemma SaveCounts(rows: Rows, e: Executor, a: Allowances, weather: Weather)
    requires e.journal.state.Some?
    ensures var e' := e.(budget := e.budget.(allowances := a));
            var w := SaveLocal(e', rows, weather);
            CountsKept(rows, w.rows) && Waits(e, e'.(journal := w.journal))
  {
    SaveCases(rows, e.(budget := e.budget.(allowances := a)), weather);
  }

  lemma ClaimCounts(rows: Rows, e: Executor, x: Allowance, probe: Probe, weather: Weather)
    requires e.journal.state.Some?
    ensures var s := Claimed(e, rows, x, probe, weather); CountsKept(rows, s.rows) && Waits(e, s.executor)
  {
    SaveCounts(rows, e, Granting(e.budget.allowances, x), weather);
  }

  lemma NegotiateCounts(rows: Rows, e: Executor, route: Route, initial: Protocol, weather: Weather)
    requires e.journal.state.Some?
    ensures var s := Negotiated(e, rows, route, initial, weather); CountsKept(rows, s.rows) && Waits(e, s.executor)
  {
    SaveCounts(rows, e, SetProtocol(e.budget, route, initial).allowances, weather);
  }

  lemma DowngradeCounts(rows: Rows, e: Executor, route: Route, first: Weather, second: Weather)
    requires e.journal.state.Some?
    ensures var s := Downgraded(e, rows, route, first, second); CountsKept(rows, s.rows) && Waits(e, s.executor)
  {
    var known := Negotiated(e, rows, route, JsonSchema, first);
    NegotiateCounts(rows, e, route, JsonSchema, first);
    var b := known.executor.budget;
    if known.outcome.Ok? && !b.allowances.protocols[route].Text? {
      SaveCounts(known.rows, known.executor, SetProtocol(b, route, Lower(b.allowances.protocols[route])).allowances, second);
    }
  }

  lemma UpdateCounts(rows: Rows, e: Executor, s: Step<Result>)
    requires e.journal.state.Some? && UpdateStep(rows, e, s, false)
    ensures CountsKept(rows, s.rows) && Waits(e, s.executor)
  {
  }

  // A start adds one request to its own operation or leaves every count alone.
  lemma StartCounts(rows: Rows, e: Executor, request: Request, now: real, weather: Weather)
    requires RowsOk(rows) && ExecutorOk(rows, e)
    ensures var (s, id) := (RequestStarted(e, rows, request, now, weather), e.budget.operationId);
            && (s.rows == rows ==> CountsKept(rows, s.rows))
            && (s.rows != rows ==>
                  && id in rows.operations && id in s.rows.operations && !InFlight(e)
                  && s.rows.operations[id].requestCount == rows.operations[id].requestCount + 1
                  && CountsKept(rows.(operations := rows.operations - {id}), s.rows))
            && (InFlight(e) ==> Waits(e, s.executor))
  {
    StartStepCases(rows, e, request, now, weather);
  }

  // What an event adds to the stored count of an operation.
  ghost predicate Adds(w: World, event: Event, operationId: string, more: nat)
    requires operationId in w.rows.operations
  {
    && operationId in Next(w, event).rows.operations
    && Next(w, event).rows.operations[operationId].requestCount == w.rows.operations[operationId].requestCount + more
  }

  lemma SendAdds(w: World, event: Event, operationId: string)
    requires Inv(w) && operationId in w.rows.operations && event.Send? && event.id in w.executors
    ensures Adds(w, event, operationId, if Registers(w, event, operationId) then 1 else 0)
  {
    var e := w.executors[event.id];
    StartCounts(w.rows, e, event.request, event.now, event.weather);
    var s := RequestStarted(e, w.rows, event.request, event.now, event.weather);
    assert Next(w, event).rows == s.rows;
    if s.rows != w.rows && operationId != e.budget.operationId {
      assert operationId in (w.rows.operations - {e.budget.operationId});
    }
  }

  lemma StepCounts(w: World, event: Event, operationId: string)
    requires Inv(w) && operationId in w.rows.operations
    ensures Adds(w, event, operationId, if Registers(w, event, operationId) then 1 else 0)
  {
    if event.Open? {
    } else if event.id !in w.executors {
      assert Next(w, event).rows == w.rows;
    } else if event.Send? {
      SendAdds(w, event, operationId);
    } else {
      ExecutorStepCounts(w, event);
    }
  }

  // The executor id waits for the request it registered.
  ghost predicate Pending(w: World, id: nat, e: Executor) {
    id in w.executors && InFlight(w.executors[id]) && Waits(e, w.executors[id])
  }

  lemma PendingStays(w: World, event: Event, id: nat, e: Executor)
    requires Inv(w) && Pending(w, id, e) && !(event.id == id && (event.Crash? || event.Finish?))
    ensures Pending(Next(w, event), id, e)
  {
    if event.id != id {
    } else if !event.Open? {
      ExecutorStepCounts(w, event);
    }
  }

  // The stored count grows by the registrations of a run.
  lemma {:induction false} RunCounts(w: World, events: seq<Event>, operationId: string)
    requires Inv(w) && operationId in w.rows.operations
    ensures var rows' := Run(w, events).rows;
            && operationId in rows'.operations
            && rows'.operations[operationId].requestCount
               == w.rows.operations[operationId].requestCount + Registrations(w, events, operationId)
    decreases |events|
  {
    if events != [] {
      StepCounts(w, events[0], operationId);
      NextKeeps(w, events[0]);
      RunCounts(Next(w, events[0]), events[1..], operationId);
    }
  }

  lemma {:induction false} PendingRun(w: World, events: seq<Event>, id: nat, e: Executor)
    requires Inv(w) && Pending(w, id, e)
    requires forall event <- events :: !(event.id == id && (event.Crash? || event.Finish?))
    ensures Pending(Run(w, events), id, e)
    decreases |events|
  {
    if events != [] {
      assert events[0] in events;
      PendingStays(w, events[0], id, e);
      NextKeeps(w, events[0]);
      PendingRun(Next(w, events[0]), events[1..], id, e);
    }
  }

  // From a successful send of an executor to its recorded ending, whatever the
  // others do meanwhile, its live count ends up equal to the stored one if and
  // only if no request of the operation was registered in between.
  lemma CountsAgreeOverRun(w: World, send: Event, events: seq<Event>, usage: Usage, weather: Weather)
    requires Inv(w) && send.Send? && send.id in w.executors
    requires RequestStarted(w.executors[send.id], w.rows, send.request, send.now, send.weather).outcome.Ok?
    requires forall event <- events :: !(event.id == send.id && (event.Crash? || event.Finish?))
    ensures var operationId := w.executors[send.id].budget.operationId;
            var sent := Next(w, send);
            var w' := Next(Run(sent, events), Finish(send.id, usage, weather));
            && send.id in w'.executors && operationId in w'.rows.operations
            && (w'.executors[send.id].budget.RequestCount() == w'.rows.operations[operationId].requestCount
                <==> Registrations(sent, events, operationId) == 0)
  {
    var sent := Next(w, send);
    SendIsPending(w, send);
    NextKeeps(w, send);
    PendingAgrees(sent, events, send.id, usage, weather);
  }

  lemma PendingAgrees(w: World, events: seq<Event>, id: nat, usage: Usage, weather: Weather)
    requires Inv(w) && id in w.executors && Pending(w, id, w.executors[id])
    requires w.executors[id].budget.operationId in w.rows.operations
    requires w.rows.operations[w.executors[id].budget.operationId].requestCount == w.executors[id].budget.RequestCount() + 1
    requires forall event <- events :: !(event.id == id && (event.Crash? || event.Finish?))
    ensures var operationId := w.executors[id].budget.operationId;
            var w' := Next(Run(w, events), Finish(id, usage, weather));
            && id in w'.executors && operationId in w'.rows.operations
            && (w'.executors[id].budget.RequestCount() == w'.rows.operations[operationId].requestCount
                <==> Registrations(w, events, operationId) == 0)
  {
    var (e, later) := (w.executors[id], Run(w, events));
    RunKeeps(w, events);
    RunCounts(w, events, e.budget.operationId);
    PendingRun(w, events, id, e);
    FinishAdds(later, id, e, usage, weather);
  }

  lemma FinishAdds(w: World, id: nat, e: Executor, usage: Usage, weather: Weather)
    requires Inv(w) && Pending(w, id, e)
    ensures var w' := Next(w, Finish(id, usage, weather));
            && id in w'.executors && w'.rows.operations == w.rows.operations
            && w'.executors[id].budget.RequestCount() == e.budget.RequestCount() + 1
  {
    HasRoom(w.rows, w.executors[id]);
    FinishCounts(w, id, usage, weather);
  }

  // Right after a successful send the executor waits for the last stored request.
  lemma SendIsPending(w: World, send: Event)
    requires Inv(w) && send.Send? && send.id in w.executors
    requires RequestStarted(w.executors[send.id], w.rows, send.request, send.now, send.weather).outcome.Ok?
    ensures var (sent, id) := (Next(w, send).executors, w.executors[send.id].budget.operationId);
            && send.id in sent && Pending(Next(w, send), send.id, sent[send.id]) && sent[send.id].budget.operationId == id
            && id in Next(w, send).rows.operations
            && Next(w, send).rows.operations[id].requestCount == sent[send.id].budget.RequestCount() + 1
  {
    var e := w.executors[send.id];
    StartStepCases(w.rows, e, send.request, send.now, send.weather);
  }

  // Every other step of an executor leaves the counts alone, and only a crash or
  // its ending ends its wait.
  ghost predicate StepWaits(w: World, event: Event)
    requires event.id in w.executors
  {
    && (!event.Send? ==> CountsKept(w.rows, Next(w, event).rows))
    && (InFlight(w.executors[event.id]) && !event.Crash? && !event.Finish? ==>
          event.id in Next(w, event).executors && Waits(w.executors[event.id], Next(w, event).executors[event.id]))
  }

  lemma UpdateWaits(w: World, event: Event)
    requires Inv(w) && event.id in w.executors && (event.Receive? || event.StoreSearch? || event.Finish?)
    ensures StepWaits(w, event)
  {
    var e := w.executors[event.id];
    if InFlight(e) {
      if event.Receive? {
        ReceiptCases(w.rows, e, event.usage, event.weather);
        UpdateCounts(w.rows, e, ReceiptSaved(e, w.rows, event.usage, event.weather));
      } else if event.StoreSearch? {
        EvidenceCases(w.rows, e, event.evidence, event.weather);
        UpdateCounts(w.rows, e, EvidenceSaved(e, w.rows, event.evidence, event.weather));
      } else {
        HasRoom(w.rows, e);
        FinishCounts(w, event.id, event.usage, event.weather);
      }
    }
  }

  lemma AllowanceWaits(w: World, event: Event)
    requires Inv(w) && event.id in w.executors && (event.ClaimAllowance? || event.UseProtocol? || event.Downgrade?)
    ensures StepWaits(w, event)
  {
    var e := w.executors[event.id];
    if event.ClaimAllowance? {
      ClaimCounts(w.rows, e, event.allowance, event.probe, event.weather);
    } else if event.UseProtocol? {
      NegotiateCounts(w.rows, e, event.route, event.initial, event.weather);
    } else {
      DowngradeCounts(w.rows, e, event.route, event.first, event.second);
    }
  }

  lemma ExecutorStepCounts(w: World, event: Event)
    requires Inv(w) && !event.Open? && event.id in w.executors
    ensures StepWaits(w, event)
  {
    if event.Send? {
      StartCounts(w.rows, w.executors[event.id], event.request, event.now, event.weather);
    } else if event.Receive? || event.StoreSearch? || event.Finish? {
      UpdateWaits(w, event);
    } else if !event.Crash? {
      AllowanceWaits(w, event);
    }
  }

  const ID := "0123456789abcdef0123456789abcdef"

  const REQUEST := Request("p", "c", "m", false, JsonSchema, Some(1))

  // Two executors of one operation: the second registers request 2 while the
  // first still waits for request 1.
  const OVERTAKEN := [
    Open(0, "t", ID, 2, 9.0, 0.0, Clear),
    Send(0, REQUEST, 1.0, Clear),
    Open(1, "t", ID, 2, 9.0, 2.0, Clear),
    Send(1, REQUEST, 3.0, Clear),
    Finish(0, NO_USAGE, Clear)]

  function StateAfter(count: nat): OperationState {
    NewState(ID, "t", 2, 9.0, 0.0).(requestCount := count)
  }

  function RecordOf(number: nat): RequestRecord {
    RequestRecord(ID, number, Some("t"), REQUEST, Unconfirmed, NO_USAGE, None)
  }

  function Opener(prior: nat, remembered: nat): Executor {
    Resumed(Journal(Some("t"), false, Some(StateAfter(remembered))), StateAfter(prior))
  }

  function After(k: nat): World {
    match k
    case 0 => START
    case 1 => World(Rows(map[ID := StateAfter(0)], map[]), map[0 := Opener(0, 0)], [], [])
    case 2 => World(Rows(map[ID := StateAfter(1)], map[(ID, 1) := RecordOf(1)]), map[0 := Opener(0, 1)], [(ID, 1)], [])
    case 3 => After(2).(executors := map[0 := Opener(0, 1), 1 := Opener(1, 1)])
    case _ => World(Rows(map[ID := StateAfter(2)], map[(ID, 1) := RecordOf(1), (ID, 2) := RecordOf(2)]),
                    map[0 := Opener(0, 1), 1 := Opener(1, 2)], [(ID, 1), (ID, 2)], [])
  }

  lemma FirstOpens()
    ensures Next(After(0), OVERTAKEN[0]) == After(1)
  {
    assert IsIdentifier(ID);
  }

  lemma StateDecodes(count: nat)
    requires count <= 2
    ensures StateAfter(count).Decodes() && REQUEST.Accepted()
  {
    assert IsIdentifier(ID);
  }

  // A start whose checks all pass.
  lemma StartGoesThrough(rows: Rows, e: Executor, request: Request, now: real)
    requires e.journal.state.Some? && e.journal.state.value.operationId == e.budget.operationId
    requires request.Accepted() && e.journal.state.value.Decodes() && !e.journal.failed
    requires Current(e.journal, rows, e.budget.operationId)
    requires e.budget.RequestCount() == e.journal.state.value.requestCount < e.journal.state.value.maxAttempts
    requires now < e.journal.state.value.deadline
    requires (e.budget.operationId, e.budget.RequestCount() + 1) !in rows.requests
    ensures var next := e.journal.state.value.(requestCount := e.budget.RequestCount() + 1);
            var journal := e.journal.(state := Some(next));
            RequestStarted(e, rows, request, now, Clear)
            == Step(e.(journal := journal), Registered(rows, next, FirstRecord(e, request)), Ok)
  {
  }

  lemma FirstSends()
    ensures Next(After(1), OVERTAKEN[1]) == After(2)
  {
    StateDecodes(0);
    StartGoesThrough(After(1).rows, Opener(0, 0), REQUEST, 1.0);
    assert Opener(0, 0).(journal := Opener(0, 1).journal) == Opener(0, 1);
  }

  lemma SecondOpens()
    ensures Next(After(2), OVERTAKEN[2]) == After(3)
  {
    StateDecodes(1);
    assert RecordMatches(After(2).rows, ID, 1, Some("t"));
  }

  lemma SecondSends()
    ensures Next(After(3), OVERTAKEN[3]) == After(4)
  {
    StateDecodes(1);
    StartGoesThrough(After(3).rows, Opener(1, 1), REQUEST, 3.0);
    assert Opener(1, 1).(journal := Opener(1, 2).journal) == Opener(1, 2);
  }

  // So the live count of an overtaken executor falls behind the stored one.
  lemma OvertakenCountFallsBehind()
    ensures var w := Run(START, OVERTAKEN);
            && ID in w.rows.operations && 0 in w.executors && !InFlight(w.executors[0])
            && w.executors[0].budget.RequestCount() == 1 && w.rows.operations[ID].requestCount == 2
  {
    FirstOpens();
    FirstSends();
    SecondOpens();
    SecondSends();
    OvertakenRuns();
    assert After(4).executors[0] == Opener(0, 1);
    FinishCounts(After(4), 0, NO_USAGE, Clear);
  }

  lemma OvertakenRuns()
    requires forall k | 0 <= k < 4 :: Next(After(k), OVERTAKEN[k]) == After(k + 1)
    ensures Run(START, OVERTAKEN) == Next(After(4), OVERTAKEN[4])
  {
    var worlds := [After(0), After(1), After(2), After(3), After(4), Next(After(4), OVERTAKEN[4])];
    RunChain(OVERTAKEN, worlds);
  }

  lemma {:induction false} RunChain(events: seq<Event>, worlds: seq<World>)
    requires |worlds| == |events| + 1
    requires forall k | 0 <= k < |events| :: Next(worlds[k], events[k]) == worlds[k + 1]
    ensures Run(worlds[0], events) == worlds[|events|]
    decreases |events|
  {
    if events != [] {
      RunChain(events[1..], worlds[1..]);
    }
  }
}
