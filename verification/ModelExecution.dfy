// The request budget of one executor (app/analysis/model_execution.py).

module ModelExecution {
  import opened Wrappers
  import opened ModelJournal

  // ----- Allowances

  datatype Allowance =
    | Repair
    | RepairScope(scope: string)
    | Context
    | EmptyRetry
    | TransportRetry(connectionId: string, endpoint: string, model: string)

  predicate Holds(a: Allowances, x: Allowance) {
    match x
    case Repair => a.repairUsed
    case RepairScope(scope) => scope in a.repairScopes
    case Context => a.contextUsed
    case EmptyRetry => a.emptyUsed
    case TransportRetry(c, e, m) => (c, e, m) in a.transportRetries
  }

  function Granting(a: Allowances, x: Allowance): Allowances {
    match x
    case Repair => a.(repairUsed := true)
    case RepairScope(scope) => a.(repairScopes := a.repairScopes + {scope})
    case Context => a.(contextUsed := true)
    case EmptyRetry => a.(emptyUsed := true)
    case TransportRetry(c, e, m) => a.(transportRetries := a.transportRetries + {(c, e, m)})
  }

  predicate IsContentHash(scope: string) {
    |scope| == 64 && forall c <- scope :: '0' <= c <= '9' || 'a' <= c <= 'f'
  }

  predicate ValidAllowance(x: Allowance) {
    x.RepairScope? ==> IsContentHash(x.scope)
  }

  // Negotiation only moves down; a search route shares the lowest rank but one.
  function Rank(p: Protocol): nat {
    match p
    case JsonSchema => 2
    case JsonObject => 1
    case Search => 1
    case Text => 0
  }

  function Lower(p: Protocol): Protocol {
    if p.JsonSchema? then JsonObject else Text
  }

  // b has every allowance of a and, on every route of a, a protocol that is no higher.
  ghost predicate Extends(a: Allowances, b: Allowances) {
    && (a.repairUsed ==> b.repairUsed) && a.repairScopes <= b.repairScopes
    && (a.contextUsed ==> b.contextUsed) && (a.emptyUsed ==> b.emptyUsed)
    && a.transportRetries <= b.transportRetries
    && forall route <- a.protocols :: route in b.protocols && Rank(b.protocols[route]) <= Rank(a.protocols[route])
  }

  lemma ExtendsTransitive(a: Allowances, b: Allowances, c: Allowances)
    requires Extends(a, b) && Extends(b, c)
    ensures Extends(a, c)
  {
    forall route <- a.protocols
      ensures route in c.protocols && Rank(c.protocols[route]) <= Rank(a.protocols[route])
    {
      assert route in b.protocols;
    }
  }

  lemma ExtendsKeepsHeld(a: Allowances, b: Allowances, x: Allowance)
    requires Extends(a, b) && Holds(a, x)
    ensures Holds(b, x)
  {
  }

  // ----- The budget of one executor, as a value

  datatype Budget = Budget(
    operationId: string,
    maxAttempts: nat,
    deadline: real,
    prior: nat,        // requests already registered when this executor opened the operation
    finished: nat,     // requests that this executor has recorded as finished
    allowances: Allowances)
  {
    function RequestCount(): nat {
      prior + finished
    }
  }

  datatype Failure = Cancelled | Deadline | AttemptBudget

  // What a check sees besides the budget: the cancellation probe and the clock.
  datatype Probe = Probe(cancelled: bool, now: real)

  function Interruption(b: Budget, probe: Probe, beforeRequest: bool): Option<Failure> {
    if probe.cancelled then Some(Cancelled)
    else if probe.now >= b.deadline then Some(Deadline)
    else if beforeRequest && b.RequestCount() >= b.maxAttempts then Some(AttemptBudget)
    else None
  }

  datatype Executor = Executor(budget: Budget, journal: Journal)

  datatype Claim = Granted | Denied | Failed(result: Result)

  datatype Step<+T> = Step(executor: Executor, rows: Rows, outcome: T)

  // An executor resumes the stored operation, whatever allowance it asked for.
  function Resumed(j: Journal, state: OperationState): Executor {
    Executor(Budget(state.operationId, state.maxAttempts, state.deadline, state.requestCount, 0, state.allowances), j)
  }

  function SaveLocal(e: Executor, rows: Rows, weather: Weather): Write {
    SavedAllowances(e.journal, rows, e.budget.allowances, weather)
  }

  function Claimed(e: Executor, rows: Rows, x: Allowance, probe: Probe, weather: Weather): Step<Claim> {
    if !ValidAllowance(x) then
      Step(e, rows, Failed(Rejected))
    else if Holds(e.budget.allowances, x) || Interruption(e.budget, probe, true).Some? then
      Step(e, rows, Denied)
    else
      var e' := e.(budget := e.budget.(allowances := Granting(e.budget.allowances, x)));
      var w := SaveLocal(e', rows, weather);
      Step(e'.(journal := w.journal), w.rows, if w.result.Ok? then Granted else Failed(w.result))
  }

  function SetProtocol(b: Budget, route: Route, p: Protocol): Budget {
    b.(allowances := b.allowances.(protocols := b.allowances.protocols[route := p]))
  }

  // The remembered protocol of a route, which is fixed on first use.
  function Negotiated(e: Executor, rows: Rows, route: Route, initial: Protocol, weather: Weather): Step<Result> {
    if route in e.budget.allowances.protocols then
      Step(e, rows, Ok)
    else
      var e' := e.(budget := SetProtocol(e.budget, route, initial));
      var w := SaveLocal(e', rows, weather);
      Step(e'.(journal := w.journal), w.rows, w.result)
  }

  function Downgraded(e: Executor, rows: Rows, route: Route, first: Weather, second: Weather): Step<Claim> {
    var known := Negotiated(e, rows, route, JsonSchema, first);
    if !known.outcome.Ok? then
      Step(known.executor, known.rows, Failed(known.outcome))
    else
      var b := known.executor.budget;
      var current := b.allowances.protocols[route];
      if current.Text? then
        Step(known.executor, known.rows, Denied)
      else
        var e' := known.executor.(budget := SetProtocol(b, route, Lower(current)));
        var w := SaveLocal(e', known.rows, second);
        Step(e'.(journal := w.journal), w.rows, if w.result.Ok? then Granted else Failed(w.result))
  }

  // A granted downgrade goes from schema to object and from anything else to text,
  // on this route alone; text is never left.
  lemma DowngradeGoesOneStep(e: Executor, rows: Rows, route: Route, first: Weather, second: Weather)
    ensures var (s, known) := (Downgraded(e, rows, route, first, second), e.budget.allowances.protocols);
            var (now, before) := (s.executor.budget.allowances.protocols, if route in known then known[route] else JsonSchema);
            && s.executor.budget == SetProtocol(e.budget, route, now[route])
            && (s.outcome.Granted? ==> !before.Text? && now[route] == if before == JsonSchema then JsonObject else Text)
            && (before.Text? ==> s.outcome.Denied? && s.executor == e && s.rows == rows)
            && (s.outcome.Denied? ==> before.Text?)
  {
    var known := e.budget.allowances.protocols;
    if route in known {
      assert known[route := known[route]] == known;
    }
  }

  function RequestStarted(e: Executor, rows: Rows, request: Request, now: real, weather: Weather): Step<Result> {
    var w := Started(e.journal, rows, e.budget.operationId, e.budget.RequestCount() + 1, request, now, weather);
    Step(e.(journal := w.journal), w.rows, w.result)
  }

  function ReceiptSaved(e: Executor, rows: Rows, usage: Usage, weather: Weather): Step<Result> {
    var w := Updated(e.journal, rows, e.budget.operationId, e.budget.RequestCount() + 1, ResponseReceived, usage, weather);
    Step(e.(journal := w.journal), w.rows, w.result)
  }

  function EvidenceSaved(e: Executor, rows: Rows, evidence: string, weather: Weather): Step<Result> {
    var w := SearchSaved(e.journal, rows, e.budget.operationId, e.budget.RequestCount() + 1, evidence, weather);
    Step(e.(journal := w.journal), w.rows, w.result)
  }

  // The attempt counts as finished even when its ending cannot be stored.
  function Recorded(e: Executor, rows: Rows, number: nat, usage: Usage, weather: Weather): Step<Result> {
    if e.budget.RequestCount() >= e.budget.maxAttempts || number != e.budget.RequestCount() + 1 then
      Step(e, rows, Rejected)
    else
      var w := Updated(e.journal, rows, e.budget.operationId, number, Finished, usage, weather);
      Step(Executor(e.budget.(finished := e.budget.finished + 1), w.journal), w.rows, w.result)
  }

  // ----- The budget object over its journal

  class ModelCallBudget {
    const journal: ModelRequestJournal
    var operationId: string
    var maxAttempts: nat
    var deadline: real
    var prior: nat
    var finished: nat
    var repairUsed: bool
    var repairScopes: set<string>
    var contextUsed: bool
    var emptyUsed: bool
    var protocols: map<Route, Protocol>
    var transportRetries: set<(string, string, string)>

    ghost function View(): Executor
      reads this, journal
    {
      Executor(BudgetView(), journal.View())
    }

    function BudgetView(): Budget
      reads this
    {
      Budget(operationId, maxAttempts, deadline, prior, finished, AllowancesView())
    }

    function AllowancesView(): Allowances
      reads this
    {
      Allowances(repairUsed, repairScopes, contextUsed, emptyUsed, protocols, transportRetries)
    }

    // A journal that has opened an operation hands its state to a fresh budget.
    constructor (journal: ModelRequestJournal)
      requires journal.state.Some?
      ensures this.journal == journal && View() == Resumed(journal.View(), journal.state.value)
    {
      var state := journal.state.value;
      this.journal := journal;
      operationId, maxAttempts, deadline := state.operationId, state.maxAttempts, state.deadline;
      prior, finished := state.requestCount, 0;
      repairUsed, repairScopes := state.allowances.repairUsed, state.allowances.repairScopes;
      contextUsed, emptyUsed := state.allowances.contextUsed, state.allowances.emptyUsed;
      protocols, transportRetries := state.allowances.protocols, state.allowances.transportRetries;
    }

    function Interrupted(probe: Probe): bool
      reads this
    {
      Interruption(BudgetView(), probe, true).Some?
    }

    method ClaimRepair(scope: Option<string>, probe: Probe, weather: Weather) returns (claim: Claim)
      modifies this, journal, journal.store
      ensures Step(View(), journal.store.rows, claim)
           == Claimed(old(View()), old(journal.store.rows),
                      if scope.None? then Repair else RepairScope(scope.value), probe, weather)
    {
      if scope.Some? && !IsContentHash(scope.value) {
        return Failed(Rejected);
      }
      var used := if scope.None? then repairUsed else scope.value in repairScopes;
      if used || Interrupted(probe) {
        return Denied;
      }
      if scope.None? {
        repairUsed := true;
      } else {
        repairScopes := repairScopes + {scope.value};
      }
      var result := journal.SaveAllowances(AllowancesView(), weather);
      claim := if result.Ok? then Granted else Failed(result);
    }

    method ClaimContext(probe: Probe, weather: Weather) returns (claim: Claim)
      modifies this, journal, journal.store
      ensures Step(View(), journal.store.rows, claim)
           == Claimed(old(View()), old(journal.store.rows), Context, probe, weather)
    {
      if contextUsed || Interrupted(probe) {
        return Denied;
      }
      contextUsed := true;
      var result := journal.SaveAllowances(AllowancesView(), weather);
      claim := if result.Ok? then Granted else Failed(result);
    }

    method ClaimEmptyRetry(probe: Probe, weather: Weather) returns (claim: Claim)
      modifies this, journal, journal.store
      ensures Step(View(), journal.store.rows, claim)
           == Claimed(old(View()), old(journal.store.rows), EmptyRetry, probe, weather)
    {
      if emptyUsed || Interrupted(probe) {
        return Denied;
      }
      emptyUsed := true;
      var result := journal.SaveAllowances(AllowancesView(), weather);
      claim := if result.Ok? then Granted else Failed(result);
    }

    method ClaimTransportRetry(connectionId: string, endpoint: string, model: string, probe: Probe, weather: Weather)
      returns (claim: Claim)
      modifies this, journal, journal.store
      ensures Step(View(), journal.store.rows, claim)
           == Claimed(old(View()), old(journal.store.rows), TransportRetry(connectionId, endpoint, model), probe, weather)
    {
      var identity := (connectionId, endpoint, model);
      if identity in transportRetries || Interrupted(probe) {
        return Denied;
      }
      transportRetries := transportRetries + {identity};
      var result := journal.SaveAllowances(AllowancesView(), weather);
      claim := if result.Ok? then Granted else Failed(result);
    }

    method Protocol(route: Route, initial: Protocol, weather: Weather) returns (result: Result, p: Protocol)
      modifies this`protocols, journal, journal.store
      ensures Step(View(), journal.store.rows, result)
           == Negotiated(old(View()), old(journal.store.rows), route, initial, weather)
      ensures route in protocols && p == protocols[route]
    {
      result := Ok;
      if route !in protocols {
        protocols := protocols[route := initial];
        result := journal.SaveAllowances(AllowancesView(), weather);
      }
      p := protocols[route];
    }

    method DowngradeProtocol(route: Route, first: Weather, second: Weather) returns (claim: Claim)
      modifies this`protocols, journal, journal.store
      ensures Step(View(), journal.store.rows, claim)
           == Downgraded(old(View()), old(journal.store.rows), route, first, second)
    {
      var result, current := Protocol(route, JsonSchema, first);
      if !result.Ok? {
        return Failed(result);
      }
      if current.Text? {
        return Denied;
      }
      protocols := protocols[route := if current.JsonSchema? then JsonObject else Text];
      result := journal.SaveAllowances(AllowancesView(), second);
      claim := if result.Ok? then Granted else Failed(result);
    }

    method StartRequest(request: Request, now: real, weather: Weather) returns (result: Result)
      modifies journal, journal.store
      ensures Step(View(), journal.store.rows, result)
           == RequestStarted(old(View()), old(journal.store.rows), request, now, weather)
    {
      result := journal.Start(operationId, prior + finished + 1, request, now, weather);
    }

    method RequestReceipt(usage: Usage, weather: Weather) returns (result: Result)
      modifies journal, journal.store
      ensures Step(View(), journal.store.rows, result)
           == ReceiptSaved(old(View()), old(journal.store.rows), usage, weather)
    {
      result := journal.Update(operationId, prior + finished + 1, ResponseReceived, usage, weather);
    }

    method SaveSearch(evidence: string, weather: Weather) returns (result: Result)
      modifies journal, journal.store
      ensures Step(View(), journal.store.rows, result)
           == EvidenceSaved(old(View()), old(journal.store.rows), evidence, weather)
    {
      result := journal.SaveSearch(operationId, prior + finished + 1, evidence, weather);
    }

    method Record(number: nat, usage: Usage, weather: Weather) returns (result: Result)
      modifies this`finished, journal, journal.store
      ensures Step(View(), journal.store.rows, result)
           == Recorded(old(View()), old(journal.store.rows), number, usage, weather)
    {
      if prior + finished >= maxAttempts || number != prior + finished + 1 {
        return Rejected;
      }
      finished := finished + 1;
      result := journal.Update(operationId, number, Finished, usage, weather);
    }
  }
}
