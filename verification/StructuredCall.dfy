// The retry loop of a structured model call, which spends the allowances of the
// shared budget (app/analysis/llm.py). Every provider answer, clock reading,
// cancellation and storage fault is an input.

module StructuredCall {
  import opened Wrappers
  import opened ModelJournal
  import opened ModelExecution

  // ----- Inputs

  datatype ProviderRoute = ProviderRoute(
    providerId: string,
    connectionId: string,
    endpoint: string,
    model: string,
    initial: Protocol,
    searches: bool)
  {
    function Key(): Route {
      (providerId, model)
    }

    function Retry(): Allowance {
      TransportRetry(connectionId, endpoint, model)
    }
  }

  datatype FailureCode =
    | Disabled | DailyBudget | AttemptLimit | DeadlinePassed | Timeout | RateLimited | Unauthorized | ProviderError
    | UnsupportedFormat | EmptyResponse | InvalidOutput | ContextUnavailable | CancelledByUser

  // What came back for one request: a parsed object, a classified failure with
  // an optional retry delay, or an exception that no handler classifies.
  datatype Reply<+O> = Parsed(answer: O) | Failure(code: FailureCode, delay: Option<real>) | Escapes

  // Everything the environment decides in one pass of the loop.
  datatype Turn<+O> = Turn(
    before: Probe, overDailyBudget: bool, authorized: bool, again: Probe,
    repairTooLarge: bool, overCapacity: bool,
    request: Request, startedAt: real, responded: bool, reply: Reply<O>, replied: Probe, usage: Usage,
    waitFrom: Probe, waitInterrupted: bool, waitUntil: Probe, after: Probe,
    protocolWeather: Weather, startWeather: Weather, receiptWeather: Weather, recordWeather: Weather,
    retryWeather: Weather, downgradeWeather: (Weather, Weather), allowanceWeather: Weather)

  datatype SearchReply = Found | SearchFailed(code: FailureCode) | SearchEscapes

  datatype SearchTurn = SearchTurn(
    overDailyBudget: bool, checked: Probe, before: Probe, authorized: bool, request: Request, startedAt: real,
    responded: bool, reply: SearchReply, usage: Usage, evidence: string,
    startWeather: Weather, receiptWeather: Weather, evidenceWeather: Weather, recordWeather: Weather)

  datatype Outcome<+V> = Value(value: V) | Error(code: FailureCode) | Raised

  function CodeOf(f: ModelExecution.Failure): FailureCode {
    match f
    case Cancelled => CancelledByUser
    case Deadline => DeadlinePassed
    case AttemptBudget => AttemptLimit
  }

  // ----- What a route can still spend

  function Unspent(a: Allowances, x: Allowance): nat {
    if Holds(a, x) then 0 else 1
  }

  // Downgrades left on a route; two before the route is first used.
  function ProtocolRoom(a: Allowances, route: Route): nat {
    if route in a.protocols then Rank(a.protocols[route]) else 2
  }

  function RouteRoom(a: Allowances, r: ProviderRoute): nat {
    Unspent(a, r.Retry()) + ProtocolRoom(a, r.Key())
  }

  function SharedRoom(a: Allowances, repair: Allowance): nat {
    Unspent(a, repair) + Unspent(a, EmptyRetry)
  }

  // ----- Effects of the budget's steps on what is left

  // A claim adds what it is for or leaves the budget alone.
  lemma ClaimDecides(e: Executor, rows: Rows, x: Allowance, probe: Probe, weather: Weather)
    ensures var s := Claimed(e, rows, x, probe, weather);
            var stops := Holds(e.budget.allowances, x) || Interruption(e.budget, probe, true).Some?;
            && s.executor.budget == (if ValidAllowance(x) && !stops
                                     then e.budget.(allowances := Granting(e.budget.allowances, x)) else e.budget)
            && (s.outcome.Denied? <==> ValidAllowance(x) && stops)
  {
  }

  lemma GrantingSpendsOne(a: Allowances, x: Allowance, y: Allowance)
    ensures Unspent(Granting(a, x), y) == if x == y then 0 else Unspent(a, y)
    ensures Granting(a, x).protocols == a.protocols
  {
  }

  // ----- What a turn brings

  predicate InTime(probe: Probe, deadline: real) {
    !probe.cancelled && probe.now < deadline
  }

  // Why a check stops the call.
  predicate StoppedBy(probe: Probe, deadline: real, code: FailureCode) {
    if probe.cancelled then code == CancelledByUser else probe.now >= deadline && code == DeadlinePassed
  }

  // The valid answer of a request, if it came in time.
  function Answer<O, V>(turn: Turn<O>, validate: O -> Option<V>, deadline: real): Option<V> {
    if turn.reply.Parsed? && InTime(turn.replied, deadline) then validate(turn.reply.answer) else None
  }

  // What a request without a valid answer failed with.
  predicate FailsWith<O, V>(turn: Turn<O>, validate: O -> Option<V>, deadline: real, code: FailureCode) {
    match turn.reply
    case Failure(c, _) => c == code
    case Parsed(answer) => if validate(answer).None? then code == InvalidOutput else StoppedBy(turn.replied, deadline, code)
    case Escapes => false
  }

  const FINAL_CODES := {Unauthorized, CancelledByUser, DeadlinePassed}

  // Every check in front of a request has passed.
  predicate MaySend<O>(turn: Turn<O>, deadline: real) {
    && InTime(turn.before, deadline) && InTime(turn.again, deadline)
    && !turn.overDailyBudget && turn.authorized && !turn.overCapacity
  }

  // A check in front of a request has failed with this code.
  predicate BlockedBy<O>(turn: Turn<O>, b: Budget, code: FailureCode) {
    || StoppedBy(turn.before, b.deadline, code) || StoppedBy(turn.again, b.deadline, code)
    || (code == AttemptLimit && b.RequestCount() >= b.maxAttempts)
    || (code == DailyBudget && turn.overDailyBudget)
    || (code == Unauthorized && !turn.authorized)
  }

  // The request cannot be registered at all.
  predicate Unfit(request: Request, b: Budget) {
    !request.Accepted() || !IsIdentifier(b.operationId) || b.RequestCount() >= MAX_REQUESTS
  }

  // Nothing of this turn can be relied on: an exception passes through.
  predicate Disturbed<O>(turn: Turn<O>, route: ProviderRoute, b: Budget, scope: Option<string>) {
    || turn.reply.Escapes?
    || turn.protocolWeather == GuardError(false) || turn.startWeather == GuardError(false)
    || turn.retryWeather == GuardError(false) || turn.allowanceWeather == GuardError(false)
    || turn.downgradeWeather.0 == GuardError(false) || turn.downgradeWeather.1 == GuardError(false)
    || (route.Key() in b.allowances.protocols && Unfit(turn.request.(protocol := b.allowances.protocols[route.Key()]), b))
    || (scope.Some? && !IsContentHash(scope.value))
  }

  // Receipt and ending meet no storage fault.
  predicate Stores<O>(turn: Turn<O>) {
    !turn.receiptWeather.StorageError? && !turn.recordWeather.StorageError?
  }

  // The allowances once the protocol of a route is fixed.
  function Known(a: Allowances, route: ProviderRoute): Allowances {
    if route.Key() in a.protocols then a else a.(protocols := a.protocols[route.Key() := route.initial])
  }

  // What answers a failure: one step down in the protocol, a repair or the empty
  // retry. None when it is used up or there is nothing for this failure.
  function Spends(a: Allowances, route: ProviderRoute, repair: Allowance, code: FailureCode): Option<Allowances> {
    match code
    case UnsupportedFormat =>
      if route.Key() !in a.protocols || a.protocols[route.Key()].Text? then None
      else
        var lower := if a.protocols[route.Key()].JsonSchema? then JsonObject else Text;
        Some(a.(protocols := a.protocols[route.Key() := lower]))
    case InvalidOutput => if Holds(a, repair) then None else Some(Granting(a, repair))
    case EmptyResponse => if a.emptyUsed then None else Some(a.(emptyUsed := true))
    case _ => None
  }

  // ----- What the journal does with a request

  // The request after the counted ones is registered and has no ending.
  ghost predicate Pending(journal: Journal, rows: Rows, b: Budget) {
    var key := (b.operationId, b.RequestCount() + 1);
    && !journal.failed && key in rows.requests
    && var r := rows.requests[key]; r.operationId == key.0 && r.number == key.1 && !r.state.Finished?
  }

  ghost predicate PendingSearch(rows: Rows, b: Budget) {
    var key := (b.operationId, b.RequestCount() + 1);
    key in rows.requests && rows.requests[key].request.protocol.Search?
  }

  lemma StartLeaves(e: Executor, rows: Rows, request: Request, now: real, weather: Weather)
    ensures var s := RequestStarted(e, rows, request, now, weather);
            if s.outcome.Ok? then Pending(s.executor.journal, s.rows, e.budget)
                                  && (request.protocol.Search? ==> PendingSearch(s.rows, e.budget))
            else s.executor.journal.failed || weather == GuardError(false) || Unfit(request, e.budget)
  {
  }

  lemma ReceiptLeaves(e: Executor, rows: Rows, usage: Usage, weather: Weather)
    requires Pending(e.journal, rows, e.budget)
    ensures var s := ReceiptSaved(e, rows, usage, weather);
            if weather.StorageError? then !s.outcome.Ok? && s.executor.journal.failed
            else && s.outcome.Ok? && Pending(s.executor.journal, s.rows, e.budget)
                 && s.rows.requests[(e.budget.operationId, e.budget.RequestCount() + 1)].state.ResponseReceived?
                 && (PendingSearch(rows, e.budget) ==> PendingSearch(s.rows, e.budget))
  {
  }

  lemma EvidenceLeaves(e: Executor, rows: Rows, evidence: string, weather: Weather)
    requires Pending(e.journal, rows, e.budget) && PendingSearch(rows, e.budget)
    requires rows.requests[(e.budget.operationId, e.budget.RequestCount() + 1)].state.ResponseReceived?
    ensures var s := EvidenceSaved(e, rows, evidence, weather);
            if weather.StorageError? then !s.outcome.Ok? && s.executor.journal.failed
            else s.outcome.Ok? && Pending(s.executor.journal, s.rows, e.budget)
  {
  }

  lemma EndingLeaves(e: Executor, rows: Rows, usage: Usage, weather: Weather)
    requires Pending(e.journal, rows, e.budget) && e.budget.RequestCount() < e.budget.maxAttempts
    ensures var s := Recorded(e, rows, e.budget.RequestCount() + 1, usage, weather);
            s.outcome.Ok? <==> !weather.StorageError?
  {
  }

  // An ending that is not stored fails the journal.
  lemma EndingFails(e: Executor, rows: Rows, usage: Usage, weather: Weather)
    requires e.budget.RequestCount() < e.budget.maxAttempts
    ensures var s := Recorded(e, rows, e.budget.RequestCount() + 1, usage, weather);
            !s.outcome.Ok? || e.journal.failed ==> s.executor.journal.failed
  {
  }

  lemma SaveFails(e: Executor, rows: Rows, weather: Weather)
    ensures var w := SaveLocal(e, rows, weather); !w.result.Ok? ==> w.journal.failed || weather == GuardError(false)
  {
  }

  lemma ClaimFails(e: Executor, rows: Rows, x: Allowance, probe: Probe, weather: Weather)
    ensures var s := Claimed(e, rows, x, probe, weather);
            s.outcome.Failed? ==> s.executor.journal.failed || weather == GuardError(false) || !ValidAllowance(x)
  {
    SaveFails(e.(budget := e.budget.(allowances := Granting(e.budget.allowances, x))), rows, weather);
  }

  lemma NegotiationFails(e: Executor, rows: Rows, route: Route, initial: Protocol, weather: Weather)
    ensures var s := Negotiated(e, rows, route, initial, weather);
            && s.executor.budget == (if route in e.budget.allowances.protocols then e.budget else SetProtocol(e.budget, route, initial))
            && (!s.outcome.Ok? ==> s.executor.journal.failed || weather == GuardError(false))
  {
    SaveFails(e.(budget := SetProtocol(e.budget, route, initial)), rows, weather);
  }

  lemma DowngradeFails(e: Executor, rows: Rows, route: Route, first: Weather, second: Weather)
    ensures var s := Downgraded(e, rows, route, first, second);
            s.outcome.Failed? ==> s.executor.journal.failed || first == GuardError(false) || second == GuardError(false)
  {
    NegotiationFails(e, rows, route, JsonSchema, first);
    var known := Negotiated(e, rows, route, JsonSchema, first);
    var b := known.executor.budget;
    SaveFails(known.executor.(budget := SetProtocol(b, route, Lower(b.allowances.protocols[route]))), known.rows, second);
  }

  // ----- One request

  datatype AttemptResult<+V> = AttemptResult(outcome: Outcome<V>, delay: Option<real>, sent: bool)

  // What an attempt reports of its turn, with the budget it leaves.
  ghost predicate Attempted<O, V>(route: ProviderRoute, turn: Turn<O>, validate: O -> Option<V>, b: Budget, failed: bool,
                                  r: AttemptResult<V>)
  {
    && (r.sent ==> !turn.overCapacity)
    && (r.sent && Stores(turn) && Answer(turn, validate, b.deadline).Some? ==> r.outcome.Value?)
    && match r.outcome
       case Value(v) => r.sent && Answer(turn, validate, b.deadline) == Some(v)
       case Error(code) =>
         if r.sent then FailsWith(turn, validate, b.deadline, code) && r.delay == DelayOf(turn)
         else turn.overCapacity && code == ContextUnavailable && r.delay.None?
       case Raised => failed || Disturbed(turn, route, b, None)
  }

  method Attempt<O, V>(route: ProviderRoute, turn: Turn<O>, validate: O -> Option<V>, budget: ModelCallBudget)
    returns (r: AttemptResult<V>)
    requires budget.prior + budget.finished < budget.maxAttempts
    modifies budget, budget.journal, budget.journal.store
    ensures budget.BudgetView() == old(budget.BudgetView()).(
              finished := old(budget.finished) + (if r.sent then 1 else 0), allowances := budget.AllowancesView())
    ensures budget.AllowancesView() == Known(old(budget.AllowancesView()), route)
    ensures Attempted(route, turn, validate, budget.BudgetView(), budget.journal.failed, r)
  {
    NegotiationFails(budget.View(), budget.journal.store.rows, route.Key(), route.initial, turn.protocolWeather);
    var negotiated, protocol := budget.Protocol(route.Key(), route.initial, turn.protocolWeather);
    if !negotiated.Ok? {
      return AttemptResult(Raised, None, false);
    }
    if turn.overCapacity {
      return AttemptResult(Error(ContextUnavailable), None, false);
    }
    var started, receipt := SendRequest(turn, protocol, budget);
    if !started.Ok? {
      return AttemptResult(Raised, None, false);
    }
    var outcome, delay := Judge(turn, validate, budget);
    var recorded := RecordAttempt(turn.usage, turn.recordWeather, budget);
    if !receipt.Ok? || !recorded.Ok? {
      outcome := Raised;
    }
    r := AttemptResult(outcome, delay, true);
  }

  function DelayOf<O>(turn: Turn<O>): Option<real> {
    if turn.reply.Failure? then turn.reply.delay else None
  }

  // Registers the request and, once the provider has responded, its receipt.
  method SendRequest<O>(turn: Turn<O>, protocol: Protocol, budget: ModelCallBudget)
    returns (started: Result, receipt: Result)
    modifies budget, budget.journal, budget.journal.store
    ensures budget.BudgetView() == old(budget.BudgetView())
    ensures if started.Ok? then
              if receipt.Ok? then Pending(budget.journal.View(), budget.journal.store.rows, budget.BudgetView())
              else turn.receiptWeather.StorageError? && budget.journal.failed
            else
              || budget.journal.failed || turn.startWeather == GuardError(false)
              || Unfit(turn.request.(protocol := protocol), budget.BudgetView())
  {
    receipt := Ok;
    var request := turn.request.(protocol := protocol);
    StartLeaves(budget.View(), budget.journal.store.rows, request, turn.startedAt, turn.startWeather);
    started := budget.StartRequest(request, turn.startedAt, turn.startWeather);
    if started.Ok? && (turn.responded || turn.reply.Parsed?) {
      ReceiptLeaves(budget.View(), budget.journal.store.rows, turn.usage, turn.receiptWeather);
      receipt := budget.RequestReceipt(turn.usage, turn.receiptWeather);
    }
  }

  // The attempt counts whether or not its ending is stored.
  method RecordAttempt(usage: Usage, weather: Weather, budget: ModelCallBudget) returns (recorded: Result)
    requires budget.prior + budget.finished < budget.maxAttempts
    modifies budget, budget.journal, budget.journal.store
    ensures budget.BudgetView() == old(budget.BudgetView()).(finished := old(budget.finished) + 1)
    ensures !recorded.Ok? || old(budget.journal.failed) ==> budget.journal.failed
    ensures old(Pending(budget.journal.View(), budget.journal.store.rows, budget.BudgetView())) && !weather.StorageError? ==>
              recorded.Ok?
  {
    EndingFails(budget.View(), budget.journal.store.rows, usage, weather);
    if Pending(budget.journal.View(), budget.journal.store.rows, budget.BudgetView()) {
      EndingLeaves(budget.View(), budget.journal.store.rows, usage, weather);
    }
    recorded := budget.Record(budget.prior + budget.finished + 1, usage, weather);
  }

  // What a reply is worth: an answer counts only when it validates in time.
  method Judge<O, V>(turn: Turn<O>, validate: O -> Option<V>, budget: ModelCallBudget)
    returns (outcome: Outcome<V>, delay: Option<real>)
    ensures match outcome
            case Value(v) => Answer(turn, validate, budget.deadline) == Some(v)
            case Error(code) => FailsWith(turn, validate, budget.deadline, code)
            case Raised => turn.reply.Escapes?
    ensures delay == DelayOf(turn)
  {
    delay := None;
    match turn.reply {
      case Escapes =>
        outcome := Raised;
      case Failure(code, d) =>
        outcome, delay := Error(code), d;
      case Parsed(answer) =>
        var validated := validate(answer);
        var late := Interruption(budget.BudgetView(), turn.replied, false);
        outcome := if validated.None? then Error(InvalidOutput)
        else if late.Some? then Error(CodeOf(late.value))
        else Value(validated.value);
    }
  }

  datatype Waited = Resend | NoResend | WaitRaised

  // A retry is claimed while its delay ends before the deadline and nobody has
  // used it, and the call is neither stopped nor out of requests.
  predicate Claims<O>(b: Budget, route: ProviderRoute, turn: Turn<O>, delay: Option<real>) {
    && delay.Some? && turn.waitFrom.now + delay.value < b.deadline
    && (route.connectionId, route.endpoint, route.model) !in b.allowances.transportRetries
    && InTime(turn.waitFrom, b.deadline) && b.RequestCount() < b.maxAttempts
  }

  // Nothing stops the call before the wait is over.
  predicate WaitsOut<O>(b: Budget, turn: Turn<O>) {
    !turn.waitInterrupted && InTime(turn.waitUntil, b.deadline)
  }

  // Waiting for a transient failure to clear; the claim comes first, so a
  // wait that is cut short has still spent the retry.
  method WaitTransportRetry<O>(route: ProviderRoute, turn: Turn<O>, delay: Option<real>, budget: ModelCallBudget)
    returns (waited: Waited)
    modifies budget, budget.journal, budget.journal.store
    ensures budget.BudgetView() == old(budget.BudgetView()).(allowances := budget.AllowancesView())
    ensures var (b, a') := (old(budget.BudgetView()), budget.AllowancesView());
            var claims := Claims(b, route, turn, delay);
            var stored := SavedAllowances(old(budget.journal.View()), old(budget.journal.store.rows), a', turn.retryWeather).result.Ok?;
            && a' == (if claims then Granting(b.allowances, route.Retry()) else b.allowances)
            && (waited.Resend? <==> claims && stored && WaitsOut(b, turn))
            && (waited.WaitRaised? <==> claims && !stored)
    ensures waited.WaitRaised? ==> budget.journal.failed || turn.retryWeather == GuardError(false)
  {
    if delay.None? || delay.value >= budget.deadline - turn.waitFrom.now {
      return NoResend;
    }
    ClaimFails(budget.View(), budget.journal.store.rows, route.Retry(), turn.waitFrom, turn.retryWeather);
    var claim := budget.ClaimTransportRetry(route.connectionId, route.endpoint, route.model, turn.waitFrom, turn.retryWeather);
    if claim.Failed? {
      return WaitRaised;
    }
    if claim.Denied? || turn.waitInterrupted || Interruption(budget.BudgetView(), turn.waitUntil, true).Some? {
      return NoResend;
    }
    waited := Resend;
  }

  // ----- One route

  // How a route ends: with a final result, or with the last error of the route.
  datatype RouteEnd<+V> = Final(outcome: Outcome<V>) | GaveUp(last: FailureCode)

  datatype Retried = Again | GiveUp | RetryRaised

  // A failure is given up only when nothing answers it or no request is left.
  predicate NothingLeft(b: Budget, route: ProviderRoute, repair: Allowance, code: FailureCode) {
    b.RequestCount() >= b.maxAttempts || Spends(b.allowances, route, repair, code).None?
  }

  // The follow-up to a failed attempt when no transport retry was made.
  method NegotiateRetry<O>(route: ProviderRoute, turn: Turn<O>, code: FailureCode, repairScope: Option<string>,
                           budget: ModelCallBudget) returns (retried: Retried)
    requires route.Key() in budget.protocols
    modifies budget, budget.journal, budget.journal.store
    ensures budget.BudgetView() == old(budget.BudgetView()).(allowances := budget.AllowancesView())
    ensures var (a, a') := (old(budget.AllowancesView()), budget.AllowancesView());
            && (a' == a || Spends(a, route, RepairOf(repairScope), code) == Some(a'))
            && (retried.Again? ==> Spends(a, route, RepairOf(repairScope), code) == Some(a'))
            && (retried.GiveUp? ==> a' == a)
            && (retried.GiveUp? && InTime(turn.after, budget.deadline) ==>
                  NothingLeft(budget.BudgetView(), route, RepairOf(repairScope), code))
    ensures retried.RetryRaised? ==>
              budget.journal.failed || turn.downgradeWeather.0 == GuardError(false) || turn.downgradeWeather.1 == GuardError(false)
              || turn.allowanceWeather == GuardError(false) || (repairScope.Some? && !IsContentHash(repairScope.value))
  {
    var (rows, before) := (budget.journal.store.rows, budget.View());
    if code == UnsupportedFormat {
      DowngradeFails(before, rows, route.Key(), turn.downgradeWeather.0, turn.downgradeWeather.1);
      DowngradeGoesOneStep(before, rows, route.Key(), turn.downgradeWeather.0, turn.downgradeWeather.1);
      var claim := budget.DowngradeProtocol(route.Key(), turn.downgradeWeather.0, turn.downgradeWeather.1);
      return if claim.Granted? then Again else if claim.Denied? then GiveUp else RetryRaised;
    }
    if code == InvalidOutput {
      ClaimDecides(before, rows, RepairOf(repairScope), turn.after, turn.allowanceWeather);
      ClaimFails(before, rows, RepairOf(repairScope), turn.after, turn.allowanceWeather);
      var claim := budget.ClaimRepair(repairScope, turn.after, turn.allowanceWeather);
      return if claim.Granted? then Again else if claim.Denied? then GiveUp else RetryRaised;
    }
    if code == EmptyResponse {
      ClaimDecides(before, rows, EmptyRetry, turn.after, turn.allowanceWeather);
      ClaimFails(before, rows, EmptyRetry, turn.after, turn.allowanceWeather);
      var claim := budget.ClaimEmptyRetry(turn.after, turn.allowanceWeather);
      return if claim.Granted? then Again else if claim.Denied? then GiveUp else RetryRaised;
    }
    retried := GiveUp;
  }

  function RepairOf(scope: Option<string>): Allowance {
    if scope.None? then Repair else RepairScope(scope.value)
  }

  function Room(a: Allowances, route: ProviderRoute, repair: Allowance): nat {
    RouteRoom(a, route) + SharedRoom(a, repair)
  }

  // Requests that the budget still has room for.
  function Remaining(b: Budget): nat {
    if b.RequestCount() >= b.maxAttempts then 0 else b.maxAttempts - b.RequestCount()
  }

  // The checks in front of every request.
  function Blocked<O>(b: Budget, turn: Turn<O>): Option<FailureCode> {
    var first := Interruption(b, turn.before, true);
    var second := Interruption(b, turn.again, true);
    if first.Some? then Some(CodeOf(first.value))
    else if turn.overDailyBudget then Some(DailyBudget)
    else if !turn.authorized then Some(Unauthorized)
    else if second.Some? then Some(CodeOf(second.value))
    else None
  }

  datatype Pass<+V> = Repeat(repairing: bool) | Stop(end: RouteEnd<V>)

  // Why a pass ends its route.
  predicate EndsFor<O, V(==)>(turn: Turn<O>, validate: O -> Option<V>, route: ProviderRoute, scope: Option<string>, b: Budget,
                              failed: bool, repairing: bool, sent: nat, end: RouteEnd<V>)
  {
    match end
    case Final(Value(v)) => sent == 1 && Answer(turn, validate, b.deadline) == Some(v)
    case Final(Error(code)) =>
      || (sent == 0 && BlockedBy(turn, b, code))
      || ((sent == 1 || turn.overCapacity) && StoppedBy(turn.after, b.deadline, code))
      || (sent == 1 && code in FINAL_CODES && FailsWith(turn, validate, b.deadline, code))
    case Final(Raised) => failed || Disturbed(turn, route, b, scope)
    case GaveUp(code) =>
      && code !in FINAL_CODES
      && if sent == 1 then FailsWith(turn, validate, b.deadline, code)
         else code == ContextUnavailable && (turn.overCapacity || (repairing && turn.repairTooLarge))
  }

  // The budget after a request of the route has been sent.
  function Sent(b: Budget, route: ProviderRoute): Budget {
    b.(finished := b.finished + 1, allowances := Known(b.allowances, route))
  }

  // The failed request is sent again as it was.
  predicate Resends<O>(b: Budget, route: ProviderRoute, turn: Turn<O>, delay: Option<real>) {
    Claims(b, route, turn, delay) && WaitsOut(b, turn)
  }

  function AfterWait<O>(b: Budget, route: ProviderRoute, turn: Turn<O>, delay: Option<real>): Allowances {
    if Claims(b, route, turn, delay) then Granting(b.allowances, route.Retry()) else b.allowances
  }

  // The next request is the same again, or one that spends what answers the failure.
  predicate Carries<O>(route: ProviderRoute, turn: Turn<O>, delay: Option<real>, scope: Option<string>, repairing: bool,
                       b: Budget, code: FailureCode, a': Allowances, next: bool)
  {
    if Resends(b, route, turn, delay) then a' == AfterWait(b, route, turn, delay) && next == repairing
    else
      && Spends(AfterWait(b, route, turn, delay), route, RepairOf(scope), code) == Some(a')
      && next == (repairing || code == InvalidOutput)
  }

  // The failure is given up: no resend is possible and nothing answers it.
  predicate Drops<O>(route: ProviderRoute, turn: Turn<O>, delay: Option<real>, scope: Option<string>, b: Budget,
                     code: FailureCode, b': Budget)
  {
    && !Resends(b, route, turn, delay) && b' == b.(allowances := AfterWait(b, route, turn, delay))
    && NothingLeft(b', route, RepairOf(scope), code)
  }

  // What follows when no resend is made.
  ghost predicate Answered<O, V>(route: ProviderRoute, turn: Turn<O>, scope: Option<string>, repairing: bool, b: Budget,
                                 code: FailureCode, b': Budget, failed: bool, pass: Pass<V>)
  {
    var answer := Spends(b.allowances, route, RepairOf(scope), code);
    && (b' == b || answer == Some(b'.allowances))
    && match pass
       case Repeat(next) => answer == Some(b'.allowances) && next == (repairing || code == InvalidOutput)
       case Stop(Final(Value(_))) => false
       case Stop(Final(Error(c))) => StoppedBy(turn.after, b.deadline, c)
       case Stop(Final(Raised)) => failed || Disturbed(turn, route, b', scope)
       case Stop(GaveUp(last)) => last == code && b' == b && NothingLeft(b', route, RepairOf(scope), code)
  }

  // What a failure without a resend comes to: the call is stopped, something
  // answers the failure, or the route is given up.
  method AnswerFailure<O, V>(route: ProviderRoute, turn: Turn<O>, code: FailureCode, repairScope: Option<string>,
                             repairing: bool, budget: ModelCallBudget)
    returns (pass: Pass<V>)
    requires route.Key() in budget.protocols
    modifies budget, budget.journal, budget.journal.store
    ensures budget.BudgetView() == old(budget.BudgetView()).(allowances := budget.AllowancesView())
    ensures Answered(route, turn, repairScope, repairing, old(budget.BudgetView()), code, budget.BudgetView(),
                     budget.journal.failed, pass)
  {
    var stopped := Interruption(budget.BudgetView(), turn.after, false);
    if stopped.Some? {
      return Stop(Final(Error(CodeOf(stopped.value))));
    }
    var retried := NegotiateRetry(route, turn, code, repairScope, budget);
    pass := match retried
      case RetryRaised => Stop(Final(Raised))
      case GiveUp => Stop(GaveUp(code))
      case Again => Repeat(repairing || code == InvalidOutput);
  }

  // What follows a failed attempt.
  ghost predicate Followed<O, V>(route: ProviderRoute, turn: Turn<O>, delay: Option<real>, scope: Option<string>,
                                 repairing: bool, b: Budget, code: FailureCode, b': Budget, failed: bool, pass: Pass<V>)
  {
    var rested := AfterWait(b, route, turn, delay);
    && (b'.allowances == rested || Spends(rested, route, RepairOf(scope), code) == Some(b'.allowances))
    && match pass
       case Repeat(next) => Carries(route, turn, delay, scope, repairing, b, code, b'.allowances, next)
       case Stop(Final(Value(_))) => false
       case Stop(Final(Error(c))) => !Resends(b, route, turn, delay) && StoppedBy(turn.after, b.deadline, c)
       case Stop(Final(Raised)) => failed || Disturbed(turn, route, b', scope)
       case Stop(GaveUp(last)) => last == code && Drops(route, turn, delay, scope, b, code, b')
  }

  // The room that a pass leaves.
  ghost predicate LeavesRoom(a: Allowances, a': Allowances, route: ProviderRoute, repair: Allowance, repeats: bool) {
    SharedRoom(a', repair) <= SharedRoom(a, repair) && (repeats ==> Room(a', route, repair) < Room(a, route, repair))
  }

  // Waiting and answering leave room, and less of it when the pass repeats.
  lemma FollowUpLeavesRoom(a: Allowances, rested: Allowances, a': Allowances, route: ProviderRoute, repair: Allowance,
                           code: FailureCode, repeats: bool)
    requires repair.Repair? || repair.RepairScope?
    requires rested == a || (rested == Granting(a, route.Retry()) && !Holds(a, route.Retry()))
    requires a' == rested || Spends(rested, route, repair, code) == Some(a')
    requires repeats ==> a' != rested || rested != a
    ensures LeavesRoom(a, a', route, repair, repeats)
  {
    RetryKeepsRoom(a, rested, route, repair);
    if a' != rested {
      SpendingTakesRoom(rested, a', route, repair, code);
    }
  }

  lemma SpendingChanges(a: Allowances, route: ProviderRoute, repair: Allowance, code: FailureCode)
    requires repair.Repair? || repair.RepairScope?
    ensures Spends(a, route, repair, code) != Some(a)
  {
    if Spends(a, route, repair, code) == Some(a) {
      SpendingTakesRoom(a, a, route, repair, code);
    }
  }

  lemma AnswerFollows<O, V>(route: ProviderRoute, turn: Turn<O>, delay: Option<real>, scope: Option<string>,
                            repairing: bool, b: Budget, rested: Budget, code: FailureCode, b': Budget, failed: bool,
                            pass: Pass<V>)
    requires !Resends(b, route, turn, delay) && rested == b.(allowances := AfterWait(b, route, turn, delay))
    requires b' == rested.(allowances := b'.allowances)
    requires Answered(route, turn, scope, repairing, rested, code, b', failed, pass)
    ensures Followed(route, turn, delay, scope, repairing, b, code, b', failed, pass)
  {
  }

  // What follows a failed attempt that does not end the call.
  method FollowUp<O, V>(route: ProviderRoute, turn: Turn<O>, code: FailureCode, delay: Option<real>,
                        repairScope: Option<string>, repairing: bool, budget: ModelCallBudget)
    returns (pass: Pass<V>)
    requires route.Key() in budget.protocols
    modifies budget, budget.journal, budget.journal.store
    ensures budget.BudgetView() == old(budget.BudgetView()).(allowances := budget.AllowancesView())
    ensures Followed(route, turn, delay, repairScope, repairing, old(budget.BudgetView()), code, budget.BudgetView(),
                     budget.journal.failed, pass)
  {
    ghost var b := budget.BudgetView();
    var waited := WaitTransportRetry(route, turn, delay, budget);
    match waited {
      case WaitRaised =>
        pass := Stop(Final(Raised));
      case Resend =>
        pass := Repeat(repairing);
      case NoResend =>
        ghost var rested := budget.BudgetView();
        pass := AnswerFailure(route, turn, code, repairScope, repairing, budget);
        AnswerFollows(route, turn, delay, repairScope, repairing, b, rested, code, budget.BudgetView(), budget.journal.failed, pass);
    }
  }

  lemma FollowedLeavesRoom<O, V>(route: ProviderRoute, turn: Turn<O>, delay: Option<real>, scope: Option<string>,
                                 repairing: bool, b: Budget, code: FailureCode, b': Budget, failed: bool, pass: Pass<V>)
    requires Followed(route, turn, delay, scope, repairing, b, code, b', failed, pass)
    ensures LeavesRoom(b.allowances, b'.allowances, route, RepairOf(scope), pass.Repeat?)
  {
    var rested := AfterWait(b, route, turn, delay);
    SpendingChanges(rested, route, RepairOf(scope), code);
    FollowUpLeavesRoom(b.allowances, rested, b'.allowances, route, RepairOf(scope), code, pass.Repeat?);
  }

  // A pass from budget b that sends a request and repeats.
  ghost predicate Continues<O, V>(route: ProviderRoute, turn: Turn<O>, validate: O -> Option<V>, scope: Option<string>,
                                  repairing: bool, b: Budget, a': Allowances, next: bool)
  {
    && MaySend(turn, b.deadline)
    && exists code :: code !in FINAL_CODES && FailsWith(turn, validate, b.deadline, code)
                      && Carries(route, turn, DelayOf(turn), scope, repairing, Sent(b, route), code, a', next)
  }

  // A pass from budget b that ends the route.
  ghost predicate Ends<O, V>(route: ProviderRoute, turn: Turn<O>, validate: O -> Option<V>, scope: Option<string>,
                             repairing: bool, b: Budget, sent: nat, b': Budget, failed: bool, end: RouteEnd<V>)
  {
    && b' == b.(finished := b.finished + sent, allowances := b'.allowances)
    && (sent == 1 ==> MaySend(turn, b.deadline))
    && (sent == 1 && Stores(turn) && Answer(turn, validate, b.deadline).Some? ==>
          end == Final(Value(Answer(turn, validate, b.deadline).value)))
    && EndsFor(turn, validate, route, scope, b', failed, repairing, sent, end)
    && (end.GaveUp? && sent == 1 ==> Drops(route, turn, DelayOf(turn), scope, Sent(b, route), end.last, b'))
  }

  // What follows an attempt, as a pass that started from budget b.
  ghost predicate Passed<O, V>(route: ProviderRoute, turn: Turn<O>, validate: O -> Option<V>, scope: Option<string>,
                               repairing: bool, b: Budget, sent: nat, b': Budget, failed: bool, pass: Pass<V>)
  {
    match pass
    case Repeat(next) => sent == 1 && Continues(route, turn, validate, scope, repairing, b, b'.allowances, next)
    case Stop(end) => Ends(route, turn, validate, scope, repairing, b, sent, b', failed, end)
  }

  // A failed attempt and its follow-up make a pass.
  lemma FollowedPasses<O, V>(route: ProviderRoute, turn: Turn<O>, validate: O -> Option<V>, scope: Option<string>,
                             repairing: bool, b: Budget, sent: nat, b': Budget, failed: bool, code: FailureCode,
                             delay: Option<real>, pass: Pass<V>)
    requires code !in FINAL_CODES && sent <= 1
    requires b' == b.(finished := b.finished + sent, allowances := b'.allowances)
    requires if sent == 1 then MaySend(turn, b.deadline) && FailsWith(turn, validate, b.deadline, code) && delay == DelayOf(turn)
             else turn.overCapacity && code == ContextUnavailable && delay.None?
    requires Followed(route, turn, delay, scope, repairing,
                      b.(finished := b.finished + sent, allowances := Known(b.allowances, route)), code, b', failed, pass)
    ensures Passed(route, turn, validate, scope, repairing, b, sent, b', failed, pass)
  {
    if sent == 1 {
      assert b.(finished := b.finished + sent, allowances := Known(b.allowances, route)) == Sent(b, route);
    }
  }

  lemma BlockedMeans<O>(b: Budget, turn: Turn<O>)
    ensures match Blocked(b, turn)
            case Some(code) => BlockedBy(turn, b, code)
            case None =>
              && InTime(turn.before, b.deadline) && InTime(turn.again, b.deadline) && b.RequestCount() < b.maxAttempts
              && !turn.overDailyBudget && turn.authorized
  {
  }

  // An attempt whose checks have passed, with its follow-up.
  method Proceed<O, V(==)>(route: ProviderRoute, turn: Turn<O>, validate: O -> Option<V>, repairScope: Option<string>,
                           repairing: bool, budget: ModelCallBudget)
    returns (pass: Pass<V>, sent: nat)
    requires budget.prior + budget.finished < budget.maxAttempts
    requires Blocked(budget.BudgetView(), turn).None?
    modifies budget, budget.journal, budget.journal.store
    ensures sent <= 1
    ensures budget.BudgetView() == old(budget.BudgetView()).(
              finished := old(budget.finished) + sent, allowances := budget.AllowancesView())
    ensures LeavesRoom(old(budget.AllowancesView()), budget.AllowancesView(), route, RepairOf(repairScope), pass.Repeat?)
    ensures Passed(route, turn, validate, repairScope, repairing, old(budget.BudgetView()), sent, budget.BudgetView(),
                   budget.journal.failed, pass)
  {
    ghost var b := budget.BudgetView();
    BlockedMeans(b, turn);
    AttemptKeepsRoom(b.allowances, route, RepairOf(repairScope));
    var attempt := Attempt(route, turn, validate, budget);
    sent := if attempt.sent then 1 else 0;
    if !attempt.outcome.Error? || attempt.outcome.code in FINAL_CODES {
      pass := Stop(Final(attempt.outcome));
      AttemptEnds(route, turn, validate, repairScope, repairing, b, budget.BudgetView(), budget.journal.failed, attempt);
    } else {
      ghost var b1 := budget.BudgetView();
      pass := FollowUp(route, turn, attempt.outcome.code, attempt.delay, repairScope, repairing, budget);
      FollowedLeavesRoom(route, turn, attempt.delay, repairScope, repairing, b1, attempt.outcome.code, budget.BudgetView(),
                         budget.journal.failed, pass);
      FollowedPasses(route, turn, validate, repairScope, repairing, b, sent, budget.BudgetView(), budget.journal.failed,
                     attempt.outcome.code, attempt.delay, pass);
    }
  }

  lemma AttemptEnds<O, V>(route: ProviderRoute, turn: Turn<O>, validate: O -> Option<V>, scope: Option<string>,
                          repairing: bool, b: Budget, b': Budget, failed: bool, attempt: AttemptResult<V>)
    requires Attempted(route, turn, validate, b', failed, attempt)
    requires b' == b.(finished := b.finished + (if attempt.sent then 1 else 0), allowances := b'.allowances)
    requires attempt.sent ==> MaySend(turn, b.deadline)
    requires !attempt.outcome.Error? || attempt.outcome.code in FINAL_CODES
    ensures Ends(route, turn, validate, scope, repairing, b, if attempt.sent then 1 else 0, b', failed, Final(attempt.outcome))
  {
  }

  // One pass as it went: the budgets around it, whether it asked for a repair,
  // how many requests it sent, whether the journal has failed, and what came of it.
  datatype PassRecord<+V> = PassRecord(
    before: Budget, repairing: bool, count: nat, after: Budget, failed: bool, pass: Pass<V>)

  ghost predicate PassOk<O, V>(route: ProviderRoute, turn: Turn<O>, validate: O -> Option<V>, scope: Option<string>,
                               p: PassRecord<V>)
  {
    && p.count <= 1 && p.after == p.before.(finished := p.before.finished + p.count, allowances := p.after.allowances)
    && Passed(route, turn, validate, scope, p.repairing, p.before, p.count, p.after, p.failed, p.pass)
  }

  // One pass of the loop: it ends the route, or spends room and repeats.
  method RunPass<O, V(==)>(route: ProviderRoute, turn: Turn<O>, validate: O -> Option<V>, repairScope: Option<string>,
                           repairing: bool, budget: ModelCallBudget)
    returns (pass: Pass<V>, sent: nat, ghost step: PassRecord<V>)
    modifies budget, budget.journal, budget.journal.store
    ensures sent <= 1 && sent <= Remaining(old(budget.BudgetView()))
    ensures LeavesRoom(old(budget.AllowancesView()), budget.AllowancesView(), route, RepairOf(repairScope), pass.Repeat?)
    ensures step == PassRecord(old(budget.BudgetView()), repairing, sent, budget.BudgetView(), budget.journal.failed, pass)
    ensures PassOk(route, turn, validate, repairScope, step)
  {
    ghost var b := budget.BudgetView();
    var blocked := Blocked(budget.BudgetView(), turn);
    if blocked.Some? {
      BlockedMeans(budget.BudgetView(), turn);
      pass, sent := Stop(Final(Error(blocked.value))), 0;
    } else if repairing && turn.repairTooLarge {
      pass, sent := Stop(GaveUp(ContextUnavailable)), 0;
    } else {
      pass, sent := Proceed(route, turn, validate, repairScope, repairing, budget);
    }
    step := PassRecord(b, repairing, sent, budget.BudgetView(), budget.journal.failed, pass);
  }

  // ----- One route

  // The passes of a route, one for each turn; every one but the last repeats and
  // hands its budget to the next.
  ghost predicate Passes<O, V>(route: ProviderRoute, turns: (nat, nat) -> Turn<O>, i: nat, validate: O -> Option<V>,
                               scope: Option<string>, b: Budget, steps: seq<PassRecord<V>>)
  {
    && (forall k: nat {:trigger steps[k]} | k < |steps| :: PassOk(route, turns(i, k), validate, scope, steps[k]))
    && (forall k {:trigger steps[k + 1]} | 0 <= k < |steps| - 1 ::
          steps[k + 1].before == steps[k].after && steps[k].pass == Repeat(steps[k + 1].repairing))
    && (|steps| > 0 ==> steps[0].before == b && !steps[0].repairing)
  }

  // Passes that end in a pass which stops.
  ghost predicate RouteEnds<O, V>(route: ProviderRoute, turns: (nat, nat) -> Turn<O>, i: nat, validate: O -> Option<V>,
                                  scope: Option<string>, b: Budget, steps: seq<PassRecord<V>>, b': Budget, failed: bool,
                                  t: Tried<V>)
  {
    && steps != [] && Passes(route, turns, i, validate, scope, b, steps)
    && var last := steps[|steps| - 1];
       && last.pass == Stop(t.end) && last.after == b' && last.failed == failed
       && t.sent == |steps| - 1 + last.count
  }

  // What a route came to: how many requests it sent, and how it ended.
  datatype Tried<+V> = Tried(sent: nat, end: RouteEnd<V>)

  lemma PassesExtend<O, V>(route: ProviderRoute, turns: (nat, nat) -> Turn<O>, i: nat, validate: O -> Option<V>,
                           scope: Option<string>, b: Budget, steps: seq<PassRecord<V>>, p: PassRecord<V>)
    requires Passes(route, turns, i, validate, scope, b, steps)
    requires PassOk(route, turns(i, |steps|), validate, scope, p)
    requires if steps == [] then p.before == b && !p.repairing
             else p.before == steps[|steps| - 1].after && steps[|steps| - 1].pass == Repeat(p.repairing)
    ensures Passes(route, turns, i, validate, scope, b, steps + [p])
  {
    var more := steps + [p];
    forall k: nat {:trigger more[k]} | k < |more| ensures PassOk(route, turns(i, k), validate, scope, more[k]) {
      if k < |steps| {
        assert more[k] == steps[k];
      }
    }
    forall k {:trigger more[k + 1]} | 0 <= k < |more| - 1
      ensures more[k + 1].before == more[k].after && more[k].pass == Repeat(more[k + 1].repairing)
    {
      if k < |steps| - 1 {
        assert more[k + 1] == steps[k + 1] && more[k] == steps[k];
      }
    }
  }

  // One more pass of a route.
  method Advance<O, V(==)>(route: ProviderRoute, turns: (nat, nat) -> Turn<O>, i: nat, n: nat, validate: O -> Option<V>,
                           repairScope: Option<string>, repairing: bool, budget: ModelCallBudget,
                           ghost b: Budget, ghost steps: seq<PassRecord<V>>)
    returns (pass: Pass<V>, sent: nat, ghost step: PassRecord<V>)
    requires |steps| == n && Passes(route, turns, i, validate, repairScope, b, steps)
    requires if n == 0 then budget.BudgetView() == b && !repairing
             else steps[n - 1].after == budget.BudgetView() && steps[n - 1].pass == Repeat(repairing)
    modifies budget, budget.journal, budget.journal.store
    ensures sent <= 1 && sent <= Remaining(old(budget.BudgetView())) && (pass.Repeat? ==> sent == 1)
    ensures budget.BudgetView() == old(budget.BudgetView()).(
              finished := old(budget.finished) + sent, allowances := budget.AllowancesView())
    ensures LeavesRoom(old(budget.AllowancesView()), budget.AllowancesView(), route, RepairOf(repairScope), pass.Repeat?)
    ensures step == PassRecord(old(budget.BudgetView()), repairing, sent, budget.BudgetView(), budget.journal.failed, pass)
    ensures Passes(route, turns, i, validate, repairScope, b, steps + [step])
  {
    pass, sent, step := RunPass(route, turns(i, n), validate, repairScope, repairing, budget);
    PassesExtend(route, turns, i, validate, repairScope, b, steps, step);
    if pass.Repeat? {
      RepeatingSends(route, turns(i, n), validate, repairScope, step);
    }
  }

  // The loop of one route: it ends because every repeat leaves less room.
  method RunRoute<O, V(==)>(route: ProviderRoute, turns: (nat, nat) -> Turn<O>, i: nat, validate: O -> Option<V>,
                            repairScope: Option<string>, budget: ModelCallBudget)
    returns (end: RouteEnd<V>, sent: nat, ghost steps: seq<PassRecord<V>>)
    modifies budget, budget.journal, budget.journal.store
    ensures budget.BudgetView() == old(budget.BudgetView()).(
              finished := old(budget.finished) + sent, allowances := budget.AllowancesView())
    ensures sent <= Remaining(old(budget.BudgetView()))
    ensures sent + SharedRoom(budget.AllowancesView(), RepairOf(repairScope))
         <= 4 + SharedRoom(old(budget.AllowancesView()), RepairOf(repairScope))
    ensures RouteEnds(route, turns, i, validate, repairScope, old(budget.BudgetView()), steps, budget.BudgetView(),
                      budget.journal.failed, Tried(sent, end))
  {
    ghost var repair := RepairOf(repairScope);
    ghost var b := budget.BudgetView();
    sent, steps := 0, [];
    var repairing := false;
    while true
      invariant sent <= Remaining(b)
      invariant budget.BudgetView() == b.(finished := b.finished + sent, allowances := budget.AllowancesView())
      invariant sent + 1 + Room(budget.AllowancesView(), route, repair) <= 4 + SharedRoom(b.allowances, repair)
      invariant |steps| == sent && Passes(route, turns, i, validate, repairScope, b, steps)
      invariant if sent == 0 then budget.BudgetView() == b && !repairing
                else steps[sent - 1].after == budget.BudgetView() && steps[sent - 1].pass == Repeat(repairing)
      decreases Room(budget.AllowancesView(), route, repair)
    {
      var pass, more;
      ghost var step;
      pass, more, step := Advance(route, turns, i, sent, validate, repairScope, repairing, budget, b, steps);
      steps := steps + [step];
      sent := sent + more;
      if pass.Stop? {
        return pass.end, sent, steps;
      }
      repairing := pass.repairing;
    }
  }

  lemma RepeatingSends<O, V>(route: ProviderRoute, turn: Turn<O>, validate: O -> Option<V>, scope: Option<string>,
                             p: PassRecord<V>)
    requires PassOk(route, turn, validate, scope, p) && p.pass.Repeat?
    ensures p.count == 1 && MaySend(turn, p.before.deadline) && Answer(turn, validate, p.before.deadline).None?
  {
  }

  // Whatever answers a failure takes some of the room.
  lemma SpendingTakesRoom(a: Allowances, a': Allowances, route: ProviderRoute, repair: Allowance, code: FailureCode)
    requires repair.Repair? || repair.RepairScope?
    requires Spends(a, route, repair, code) == Some(a')
    ensures Room(a', route, repair) < Room(a, route, repair) && SharedRoom(a', repair) <= SharedRoom(a, repair)
    ensures route.Key() in a.protocols ==> route.Key() in a'.protocols
  {
    GrantingSpendsOne(a, repair, repair);
    GrantingSpendsOne(a, repair, EmptyRetry);
    GrantingSpendsOne(a, repair, route.Retry());
    GrantingSpendsOne(a, EmptyRetry, repair);
    GrantingSpendsOne(a, EmptyRetry, EmptyRetry);
    GrantingSpendsOne(a, EmptyRetry, route.Retry());
  }

  // An attempt spends nothing but may fix the protocol of its route.
  lemma AttemptKeepsRoom(a: Allowances, route: ProviderRoute, repair: Allowance)
    ensures Room(Known(a, route), route, repair) <= Room(a, route, repair)
    ensures SharedRoom(Known(a, route), repair) == SharedRoom(a, repair)
  {
  }

  lemma RetryKeepsRoom(a: Allowances, a': Allowances, route: ProviderRoute, repair: Allowance)
    requires a' == a || a' == Granting(a, route.Retry())
    ensures SharedRoom(a', repair) <= SharedRoom(a, repair) && a'.protocols == a.protocols
    ensures Room(a', route, repair) <= Room(a, route, repair)
    ensures Unspent(a, route.Retry()) == 1 && Unspent(a', route.Retry()) == 0 ==>
              Room(a', route, repair) < Room(a, route, repair)
  {
  }

  // ----- What a route tells

  // Every request of the route passed its checks, all but the last failed, and a
  // valid answer in time is what the route ends with.
  ghost predicate Asked<O, V>(turns: (nat, nat) -> Turn<O>, i: nat, validate: O -> Option<V>, deadline: real, t: Tried<V>) {
    && (forall k: nat | k < t.sent :: MaySend(turns(i, k), deadline))
    && (forall k: nat | k + 1 < t.sent :: Answer(turns(i, k), validate, deadline).None?)
    && (t.sent > 0 && Stores(turns(i, t.sent - 1)) && Answer(turns(i, t.sent - 1), validate, deadline).Some? ==>
          t.end == Final(Value(Answer(turns(i, t.sent - 1), validate, deadline).value)))
  }

  // A given-up route reports the failure of its last request, or that the next
  // one would have been too large.
  predicate Reports<O, V>(turns: (nat, nat) -> Turn<O>, i: nat, validate: O -> Option<V>, deadline: real, t: Tried<V>) {
    t.end.GaveUp? ==>
      && t.end.last !in FINAL_CODES
      && ((t.sent > 0 && FailsWith(turns(i, t.sent - 1), validate, deadline, t.end.last))
          || (t.end.last == ContextUnavailable && (turns(i, t.sent).overCapacity || turns(i, t.sent).repairTooLarge)))
  }

  // Why a route ends with its result; the route's last turn is the one after its
  // requests or that of its last request.
  predicate Concludes<O, V(==)>(turns: (nat, nat) -> Turn<O>, i: nat, validate: O -> Option<V>, route: ProviderRoute,
                                scope: Option<string>, b: Budget, failed: bool, t: Tried<V>)
  {
    || EndsFor(turns(i, t.sent), validate, route, scope, b, failed, true, 0, t.end)
    || (t.sent > 0 && EndsFor(turns(i, t.sent - 1), validate, route, scope, b, failed, true, 1, t.end))
  }

  lemma EndTells<O, V>(route: ProviderRoute, turn: Turn<O>, validate: O -> Option<V>, scope: Option<string>,
                       repairing: bool, b: Budget, sent: nat, b': Budget, failed: bool, end: RouteEnd<V>)
    requires sent <= 1 && Ends(route, turn, validate, scope, repairing, b, sent, b', failed, end)
    ensures sent == 1 ==> MaySend(turn, b.deadline)
    ensures sent == 1 && Stores(turn) && Answer(turn, validate, b.deadline).Some? ==>
              end == Final(Value(Answer(turn, validate, b.deadline).value))
    ensures EndsFor(turn, validate, route, scope, b', failed, true, sent, end)
    ensures end.GaveUp? ==> NothingLeft(b', route, RepairOf(scope), end.last)
  {
  }

  lemma {:induction false} PassesTell<O, V>(route: ProviderRoute, turns: (nat, nat) -> Turn<O>, i: nat, validate: O -> Option<V>,
                                            scope: Option<string>, b: Budget, steps: seq<PassRecord<V>>, k: nat)
    requires Passes(route, turns, i, validate, scope, b, steps) && k < |steps|
    ensures steps[k].before.deadline == b.deadline
  {
    if k > 0 {
      PassesTell(route, turns, i, validate, scope, b, steps, k - 1);
      var j := k - 1;
      assert steps[j + 1].before == steps[j].after;
    }
  }

  lemma RouteTells<O, V>(route: ProviderRoute, turns: (nat, nat) -> Turn<O>, i: nat, validate: O -> Option<V>,
                         scope: Option<string>, b: Budget, steps: seq<PassRecord<V>>, b': Budget, failed: bool, t: Tried<V>)
    requires RouteEnds(route, turns, i, validate, scope, b, steps, b', failed, t)
    ensures Asked(turns, i, validate, b.deadline, t) && Reports(turns, i, validate, b.deadline, t)
    ensures Concludes(turns, i, validate, route, scope, b', failed, t)
    ensures t.end.GaveUp? ==> NothingLeft(b', route, RepairOf(scope), t.end.last)
  {
    var n := |steps| - 1;
    forall k: nat | k < n
      ensures MaySend(turns(i, k), b.deadline) && Answer(turns(i, k), validate, b.deadline).None?
    {
      PassesTell(route, turns, i, validate, scope, b, steps, k);
      assert steps[k].pass == Repeat(steps[k + 1].repairing);
      RepeatingSends(route, turns(i, k), validate, scope, steps[k]);
    }
    PassesTell(route, turns, i, validate, scope, b, steps, n);
    EndTells(route, turns(i, n), validate, scope, steps[n].repairing, steps[n].before, steps[n].count, b', failed, t.end);
  }

  // ----- The search

  // Registers a search and, once the service has responded, its receipt and evidence.
  method SendSearch(turn: SearchTurn, budget: ModelCallBudget) returns (started: Result, stored: Result)
    modifies budget, budget.journal, budget.journal.store
    ensures budget.BudgetView() == old(budget.BudgetView())
    ensures if started.Ok? then
              if stored.Ok? then Pending(budget.journal.View(), budget.journal.store.rows, budget.BudgetView())
              else (turn.receiptWeather.StorageError? || turn.evidenceWeather.StorageError?) && budget.journal.failed
            else
              budget.journal.failed || turn.startWeather == GuardError(false) || Unfit(SearchRequest(turn), budget.BudgetView())
  {
    stored := Ok;
    StartLeaves(budget.View(), budget.journal.store.rows, SearchRequest(turn), turn.startedAt, turn.startWeather);
    started := budget.StartRequest(turn.request.(protocol := Search, forSearch := true, outputLimit := None),
                                   turn.startedAt, turn.startWeather);
    if started.Ok? && (turn.responded || turn.reply.Found?) {
      ReceiptLeaves(budget.View(), budget.journal.store.rows, turn.usage, turn.receiptWeather);
      stored := budget.RequestReceipt(turn.usage, turn.receiptWeather);
    }
    if started.Ok? && stored.Ok? && turn.reply.Found? {
      EvidenceLeaves(budget.View(), budget.journal.store.rows, turn.evidence, turn.evidenceWeather);
      stored := budget.SaveSearch(turn.evidence, turn.evidenceWeather);
    }
  }

  function SearchRequest(turn: SearchTurn): Request {
    turn.request.(protocol := Search, forSearch := true, outputLimit := None)
  }

  predicate MaySearch(turn: SearchTurn, deadline: real) {
    !turn.overDailyBudget && InTime(turn.checked, deadline) && InTime(turn.before, deadline) && turn.authorized
  }

  predicate SearchBlockedBy(turn: SearchTurn, b: Budget, code: FailureCode) {
    || (code == DailyBudget && turn.overDailyBudget)
    || StoppedBy(turn.checked, b.deadline, code) || StoppedBy(turn.before, b.deadline, code)
    || (code == AttemptLimit && b.RequestCount() >= b.maxAttempts)
    || (code == Unauthorized && !turn.authorized)
  }

  // What a search comes to, with the budget it leaves: nothing is wrong only when
  // sources were found and stored, and a failure is that of a check, of the
  // service or of the storage.
  predicate Searched(turn: SearchTurn, b: Budget, failed: bool, sent: nat, failure: Option<Outcome<()>>) {
    && (sent > 0 ==> sent == 1 && MaySearch(turn, b.deadline))
    && (failure == Some(Raised) && sent > 0 && !turn.reply.SearchEscapes? ==>
          turn.receiptWeather.StorageError? || turn.evidenceWeather.StorageError? || turn.recordWeather.StorageError?)
    && match failure
       case None => sent == 1 && turn.reply.Found?
       case Some(Value(_)) => false
       case Some(Error(code)) => if sent == 1 then turn.reply == SearchFailed(code) else SearchBlockedBy(turn, b, code)
       case Some(Raised) =>
         failed || turn.reply.SearchEscapes? || turn.startWeather == GuardError(false) || Unfit(SearchRequest(turn), b)
  }

  // The search passed its checks and found sources.
  predicate HasSources(turn: SearchTurn, deadline: real) {
    MaySearch(turn, deadline) && turn.reply.Found?
  }

  ghost predicate SearchStops(turn: SearchTurn, b: Budget, failed: bool, outcome: Outcome<()>) {
    exists n :: Searched(turn, b, failed, n, Some(outcome))
  }

  // A search spends a request of the same budget but none of the allowances.
  method SearchContext(turn: SearchTurn, budget: ModelCallBudget) returns (failure: Option<Outcome<()>>, ghost sent: nat)
    modifies budget, budget.journal, budget.journal.store
    ensures budget.BudgetView() == old(budget.BudgetView()).(finished := old(budget.finished) + sent)
    ensures sent <= Remaining(old(budget.BudgetView()))
    ensures Searched(turn, budget.BudgetView(), budget.journal.failed, sent, failure)
  {
    sent := 0;
    if turn.overDailyBudget {
      return Some(Error(DailyBudget)), sent;
    }
    var stopped := Interruption(budget.BudgetView(), turn.checked, false);
    if stopped.None? {
      stopped := Interruption(budget.BudgetView(), turn.before, true);
    }
    if stopped.Some? {
      return Some(Error(CodeOf(stopped.value))), sent;
    }
    if !turn.authorized {
      return Some(Error(Unauthorized)), sent;
    }
    var started, stored := SendSearch(turn, budget);
    if !started.Ok? {
      return Some(Raised), sent;
    }
    var recorded := RecordAttempt(NO_USAGE, turn.recordWeather, budget);
    sent := 1;
    if !stored.Ok? || !recorded.Ok? || turn.reply.SearchEscapes? {
      return Some(Raised), sent;
    }
    failure := if turn.reply.SearchFailed? then Some(Error(turn.reply.code)) else None;
  }

  // ----- The call

  // Where the outcome of a call comes from.
  datatype Origin = Beforehand | FromSearch(index: nat) | FromRoute(index: nat)

  function Total<V>(tried: seq<Tried<V>>): nat {
    if tried == [] then 0 else Total(tried[..|tried| - 1]) + tried[|tried| - 1].sent
  }

  // These routes were given up one after the other, and none of them searches.
  ghost predicate GivenUp<O, V>(routes: seq<ProviderRoute>, turns: (nat, nat) -> Turn<O>, validate: O -> Option<V>,
                                deadline: real, tried: seq<Tried<V>>)
  {
    && |tried| <= |routes|
    && forall i: nat {:trigger tried[i]} | i < |tried| :: GivenUpAt(routes[i], turns, i, validate, deadline, tried[i])
  }

  ghost predicate GivenUpAt<O, V>(route: ProviderRoute, turns: (nat, nat) -> Turn<O>, i: nat, validate: O -> Option<V>,
                                  deadline: real, t: Tried<V>)
  {
    && t.end.GaveUp? && !route.searches
    && Asked(turns, i, validate, deadline, t) && Reports(turns, i, validate, deadline, t)
  }

  // What became of a call. Every route before the last one tried was given up and
  // does not search, whatever it failed with; a result that comes from giving up
  // is that of the last route of all or of one that searches.
  ghost predicate Told<O, V>(routes: seq<ProviderRoute>, opening: Probe, turns: (nat, nat) -> Turn<O>,
                             searches: nat -> SearchTurn, validate: O -> Option<V>, scope: Option<string>, b: Budget,
                             failed: bool, outcome: Outcome<V>, origin: Origin, tried: seq<Tried<V>>)
  {
    match origin
    case Beforehand =>
      && tried == [] && outcome.Error?
      && if InTime(opening, b.deadline) && b.RequestCount() < b.maxAttempts then routes == [] && outcome.code == Disabled
         else StoppedBy(opening, b.deadline, outcome.code) || (outcome.code == AttemptLimit && b.RequestCount() >= b.maxAttempts)
    case FromSearch(i) =>
      && |tried| == i < |routes| && routes[i].searches && GivenUp(routes, turns, validate, b.deadline, tried)
      && !outcome.Value?
      && SearchStops(searches(i), b, failed, if outcome.Error? then Error(outcome.code) else Raised)
    case FromRoute(i) =>
      && |tried| == i + 1 <= |routes| && GivenUp(routes, turns, validate, b.deadline, tried[..i])
      && Asked(turns, i, validate, b.deadline, tried[i]) && Reports(turns, i, validate, b.deadline, tried[i])
      && Concludes(turns, i, validate, routes[i], scope, b, failed, tried[i])
      && (routes[i].searches ==> HasSources(searches(i), b.deadline))
      && match tried[i].end
         case Final(result) => outcome == result
         case GaveUp(last) =>
           && outcome == Error(last) && (i == |routes| - 1 || routes[i].searches)
           && NothingLeft(b, routes[i], RepairOf(scope), last)
  }

  lemma GivenUpExtends<O, V>(routes: seq<ProviderRoute>, turns: (nat, nat) -> Turn<O>, validate: O -> Option<V>,
                             deadline: real, tried: seq<Tried<V>>, t: Tried<V>)
    requires GivenUp(routes, turns, validate, deadline, tried) && |tried| < |routes|
    requires GivenUpAt(routes[|tried|], turns, |tried|, validate, deadline, t)
    ensures GivenUp(routes, turns, validate, deadline, tried + [t])
  {
    var more := tried + [t];
    forall i: nat {:trigger more[i]} | i < |more| ensures GivenUpAt(routes[i], turns, i, validate, deadline, more[i]) {
      if i < |tried| {
        assert more[i] == tried[i];
        assert GivenUpAt(routes[i], turns, i, validate, deadline, tried[i]);
      } else {
        assert more[i] == t;
      }
    }
  }

  // One route of the call: its search, if it has one, and its requests.
  method TryRoute<O, V(==)>(route: ProviderRoute, turns: (nat, nat) -> Turn<O>, i: nat, search: SearchTurn,
                            validate: O -> Option<V>, repairScope: Option<string>, budget: ModelCallBudget)
    returns (failure: Option<Outcome<()>>, end: RouteEnd<V>, sent: nat)
    modifies budget, budget.journal, budget.journal.store
    ensures budget.BudgetView() == old(budget.BudgetView()).(finished := budget.finished, allowances := budget.AllowancesView())
    ensures sent + Remaining(budget.BudgetView()) <= Remaining(old(budget.BudgetView()))
    ensures sent + SharedRoom(budget.AllowancesView(), RepairOf(repairScope))
         <= 4 + SharedRoom(old(budget.AllowancesView()), RepairOf(repairScope))
    ensures failure.Some? ==>
              && route.searches && sent == 0
              && !failure.value.Value?
              && SearchStops(search, budget.BudgetView(), budget.journal.failed, failure.value)
    ensures budget.finished <= old(budget.finished) + sent + 1
    ensures failure.None? ==>
              var t := Tried(sent, end);
              && (route.searches ==> HasSources(search, budget.deadline))
              && budget.finished == old(budget.finished) + sent + (if route.searches then 1 else 0)
              && Asked(turns, i, validate, budget.deadline, t) && Reports(turns, i, validate, budget.deadline, t)
              && Concludes(turns, i, validate, route, repairScope, budget.BudgetView(), budget.journal.failed, t)
              && (end.GaveUp? ==> NothingLeft(budget.BudgetView(), route, RepairOf(repairScope), end.last))
  {
    failure, end, sent := None, GaveUp(ProviderError), 0;
    if route.searches {
      ghost var n;
      failure, n := SearchContext(search, budget);
      if failure.Some? {
        assert Searched(search, budget.BudgetView(), budget.journal.failed, n, failure);
        return;
      }
    }
    ghost var b := budget.BudgetView();
    ghost var steps;
    end, sent, steps := RunRoute(route, turns, i, validate, repairScope, budget);
    RouteTells(route, turns, i, validate, repairScope, b, steps, budget.BudgetView(), budget.journal.failed, Tried(sent, end));
  }

  lemma RouteIsTold<O, V>(routes: seq<ProviderRoute>, opening: Probe, turns: (nat, nat) -> Turn<O>,
                          searches: nat -> SearchTurn, validate: O -> Option<V>, scope: Option<string>, b: Budget,
                          failed: bool, tried: seq<Tried<V>>, t: Tried<V>)
    requires GivenUp(routes, turns, validate, b.deadline, tried) && |tried| < |routes|
    requires var i := |tried|;
             && Asked(turns, i, validate, b.deadline, t) && Reports(turns, i, validate, b.deadline, t)
             && Concludes(turns, i, validate, routes[i], scope, b, failed, t)
             && (t.end.GaveUp? ==> NothingLeft(b, routes[i], RepairOf(scope), t.end.last))
             && (t.end.GaveUp? ==> i == |routes| - 1 || routes[i].searches)
             && (routes[i].searches ==> HasSources(searches(i), b.deadline))
    ensures Told(routes, opening, turns, searches, validate, scope, b, failed,
                 if t.end.Final? then t.end.outcome else Error(t.end.last), FromRoute(|tried|), tried + [t])
  {
    assert (tried + [t])[..|tried|] == tried;
  }

  lemma SearchIsTold<O, V>(routes: seq<ProviderRoute>, opening: Probe, turns: (nat, nat) -> Turn<O>,
                           searches: nat -> SearchTurn, validate: O -> Option<V>, scope: Option<string>, b: Budget,
                           failed: bool, tried: seq<Tried<V>>, failure: Outcome<()>)
    requires GivenUp(routes, turns, validate, b.deadline, tried) && |tried| < |routes|
    requires routes[|tried|].searches && !failure.Value? && SearchStops(searches(|tried|), b, failed, failure)
    ensures Told(routes, opening, turns, searches, validate, scope, b, failed,
                 if failure.Error? then Error(failure.code) else Raised, FromSearch(|tried|), tried)
  {
  }

  // The next route of a call: `done` is the outcome of the call, if it ends here.
  method TryNext<O, V(==)>(routes: seq<ProviderRoute>, opening: Probe, turns: (nat, nat) -> Turn<O>,
                           searches: nat -> SearchTurn, validate: O -> Option<V>, repairScope: Option<string>,
                           i: nat, budget: ModelCallBudget, ghost tried: seq<Tried<V>>)
    returns (done: Option<Outcome<V>>, last: FailureCode, sent: nat, ghost origin: Origin, ghost more: seq<Tried<V>>)
    requires |tried| == i < |routes| && GivenUp(routes, turns, validate, budget.deadline, tried)
    modifies budget, budget.journal, budget.journal.store
    ensures budget.BudgetView() == old(budget.BudgetView()).(finished := budget.finished, allowances := budget.AllowancesView())
    ensures sent + Remaining(budget.BudgetView()) <= Remaining(old(budget.BudgetView()))
    ensures sent + SharedRoom(budget.AllowancesView(), RepairOf(repairScope))
         <= 4 + SharedRoom(old(budget.AllowancesView()), RepairOf(repairScope))
    ensures Total(more) == Total(tried) + sent
    ensures if origin.FromSearch? then budget.finished <= old(budget.finished) + sent + 1
            else budget.finished == old(budget.finished) + sent + (if routes[i].searches then 1 else 0)
    ensures origin in {FromSearch(i), FromRoute(i)} && (done.None? ==> !routes[i].searches)
    ensures done.None? ==> |more| == i + 1 && GivenUp(routes, turns, validate, budget.deadline, more) && origin == FromRoute(i)
    ensures done.Some? || i == |routes| - 1 ==>
              Told(routes, opening, turns, searches, validate, repairScope, budget.BudgetView(), budget.journal.failed,
                   if done.Some? then done.value else Error(last), origin, more)
  {
    var failure, end, count := TryRoute(routes[i], turns, i, searches(i), validate, repairScope, budget);
    last, sent, origin, more := ProviderError, count, FromSearch(i), tried;
    if failure.Some? {
      SearchIsTold(routes, opening, turns, searches, validate, repairScope, budget.BudgetView(), budget.journal.failed, tried,
                   failure.value);
      done := Some(if failure.value.Error? then Error(failure.value.code) else Raised);
      return;
    }
    origin, more := FromRoute(i), tried + [Tried(sent, end)];
    assert more[..|more| - 1] == tried;
    if end.Final? || routes[i].searches || i == |routes| - 1 {
      RouteIsTold(routes, opening, turns, searches, validate, repairScope, budget.BudgetView(), budget.journal.failed, tried,
                  Tried(sent, end));
    }
    if end.Final? {
      done := Some(end.outcome);
      return;
    }
    last := end.last;
    if routes[i].searches {
      done := Some(Error(last));
      return;
    }
    GivenUpExtends(routes, turns, validate, budget.deadline, tried, Tried(sent, end));
    done := None;
  }

  // For k routes at most 4k + 2 generation requests are sent, and no more than
  // the budget has left.
  method CallStructured<O, V(==)>(routes: seq<ProviderRoute>, opening: Probe, turns: (nat, nat) -> Turn<O>,
                                  searches: nat -> SearchTurn, validate: O -> Option<V>,
                                  repairScope: Option<string>, budget: ModelCallBudget)
    returns (outcome: Outcome<V>, sent: nat, ghost origin: Origin, ghost tried: seq<Tried<V>>)
    modifies budget, budget.journal, budget.journal.store
    ensures sent == Total(tried) <= 4 * |routes| + 2
    ensures sent <= Remaining(old(budget.BudgetView()))
    ensures budget.deadline == old(budget.deadline)
    ensures match origin
            case Beforehand => budget.finished == old(budget.finished) && sent == 0
            case FromSearch(_) => budget.finished <= old(budget.finished) + sent + 1
            case FromRoute(i) => i < |routes| && budget.finished == old(budget.finished) + sent + if routes[i].searches then 1 else 0
    ensures Told(routes, opening, turns, searches, validate, repairScope, budget.BudgetView(), budget.journal.failed,
                 outcome, origin, tried)
  {
    sent, origin, tried := 0, Beforehand, [];
    var stopped := Interruption(budget.BudgetView(), opening, true);
    if stopped.Some? {
      return Error(CodeOf(stopped.value)), 0, origin, tried;
    }
    if routes == [] {
      return Error(Disabled), 0, origin, tried;
    }
    outcome := Error(ProviderError);
    ghost var repair := RepairOf(repairScope);
    for i := 0 to |routes|
      invariant budget.BudgetView() == old(budget.BudgetView()).(finished := budget.finished, allowances := budget.AllowancesView())
      invariant sent == Total(tried) && sent + SharedRoom(budget.AllowancesView(), repair) <= 4 * i + 2
      invariant sent + Remaining(budget.BudgetView()) <= Remaining(old(budget.BudgetView()))
      invariant budget.finished == old(budget.finished) + sent
      invariant |tried| == i && GivenUp(routes, turns, validate, budget.deadline, tried)
      invariant i == |routes| ==> origin == FromRoute(i - 1) && !routes[i - 1].searches
      invariant i == |routes| ==> Told(routes, opening, turns, searches, validate, repairScope, budget.BudgetView(),
                                       budget.journal.failed, outcome, origin, tried)
    {
      var done, last, more;
      done, last, more, origin, tried :=
        TryNext(routes, opening, turns, searches, validate, repairScope, i, budget, tried);
      sent := sent + more;
      outcome := Error(last);
      if done.Some? {
        return done.value, sent, origin, tried;
      }
    }
  }

  lemma GivenUpAnswersNothing<O, V>(routes: seq<ProviderRoute>, turns: (nat, nat) -> Turn<O>, validate: O -> Option<V>,
                                    deadline: real, given: seq<Tried<V>>)
    requires GivenUp(routes, turns, validate, deadline, given)
    ensures forall i: nat, k: nat | i < |given| && k < given[i].sent && Stores(turns(i, k)) ::
              Answer(turns(i, k), validate, deadline).None?
  {
    forall i: nat, k: nat | i < |given| && k < given[i].sent && Stores(turns(i, k))
      ensures Answer(turns(i, k), validate, deadline).None?
    {
      var t := given[i];
      assert k == t.sent - 1 || k + 1 < t.sent;
    }
  }

  // A request that was sent and got a valid answer in time is the last one of the
  // call, and the call returns its answer unless the answer could not be stored.
  lemma ValidAnswerIsReturned<O, V>(routes: seq<ProviderRoute>, opening: Probe, turns: (nat, nat) -> Turn<O>,
                                    searches: nat -> SearchTurn, validate: O -> Option<V>, scope: Option<string>, b: Budget,
                                    failed: bool, outcome: Outcome<V>, origin: Origin, tried: seq<Tried<V>>, i: nat, k: nat)
    requires Told(routes, opening, turns, searches, validate, scope, b, failed, outcome, origin, tried)
    requires i < |tried| && k < tried[i].sent
    requires Stores(turns(i, k)) && Answer(turns(i, k), validate, b.deadline).Some?
    ensures origin == FromRoute(i) && k == tried[i].sent - 1
    ensures outcome == Value(Answer(turns(i, k), validate, b.deadline).value)
  {
    var given := if origin.FromRoute? then tried[..origin.index] else tried;
    if !origin.Beforehand? {
      GivenUpAnswersNothing(routes, turns, validate, b.deadline, given);
    }
    assert forall j | 0 <= j < |given| :: given[j] == tried[j];
  }

  // A returned value is the valid answer, in time, of the last request of the call.
  lemma ValueIsAnswer<O, V>(routes: seq<ProviderRoute>, opening: Probe, turns: (nat, nat) -> Turn<O>,
                            searches: nat -> SearchTurn, validate: O -> Option<V>, scope: Option<string>, b: Budget,
                            failed: bool, value: V, origin: Origin, tried: seq<Tried<V>>)
    requires Told(routes, opening, turns, searches, validate, scope, b, failed, Value(value), origin, tried)
    ensures tried != [] && var (i, n) := (|tried| - 1, tried[|tried| - 1].sent);
            && origin == FromRoute(i) && n > 0 && MaySend(turns(i, n - 1), b.deadline)
            && Answer(turns(i, n - 1), validate, b.deadline) == Some(value)
  {
  }

  // Codes that end a call without trying the next route.
  const STOPPING_CODES := FINAL_CODES + {DailyBudget, AttemptLimit}

  // Any other failure of a route that does not search sends the call on to the
  // next route: such a failure is returned only by the last route, by one that
  // searches or by a search itself.
  lemma FailureFallsThrough<O, V>(routes: seq<ProviderRoute>, opening: Probe, turns: (nat, nat) -> Turn<O>,
                                  searches: nat -> SearchTurn, validate: O -> Option<V>, scope: Option<string>, b: Budget,
                                  failed: bool, code: FailureCode, origin: Origin, tried: seq<Tried<V>>)
    requires Told(routes, opening, turns, searches, validate, scope, b, failed, Outcome<V>.Error(code), origin, tried)
    requires code !in STOPPING_CODES && routes != []
    ensures match origin
            case Beforehand => false
            case FromSearch(i) => i < |routes| && routes[i].searches
            case FromRoute(i) => i < |routes| && (i == |routes| - 1 || routes[i].searches)
    ensures forall i | 0 <= i < |tried| - 1 :: tried[i].end.GaveUp? && !routes[i].searches
  {
    if origin.FromRoute? {
      assert forall i | 0 <= i < |tried| - 1 :: tried[..origin.index][i] == tried[i];
    }
  }
}
