// The durable record of model requests and of the allowances of an operation
// (app/analysis/model_journal.py).

module ModelJournal {
  import opened Wrappers

  // ----- Contracts

  datatype Protocol = JsonSchema | JsonObject | Text | Search

  type Route = (string, string) // provider, model

  datatype Allowances = Allowances(
    repairUsed: bool,
    repairScopes: set<string>,
    contextUsed: bool,
    emptyUsed: bool,
    protocols: map<Route, Protocol>,
    transportRetries: set<(string, string, string)>)

  const MAX_REQUESTS := 32

  predicate IsIdentifier(id: string) {
    |id| == 32 && forall c <- id :: '0' <= c <= '9' || 'a' <= c <= 'f'
  }

  predicate IsName(name: string) {
    1 <= |name| <= 256
  }

  datatype OperationState = OperationState(
    operationId: string,
    target: string,
    maxAttempts: nat,
    startedAt: real,
    deadline: real,
    requestCount: nat,
    allowances: Allowances)
  {
    // What the contract accepts when the stored text is decoded. Copies made by
    // the journal are written without this check.
    predicate Decodes() {
      && IsIdentifier(operationId) && IsName(target)
      && 1 <= maxAttempts <= MAX_REQUESTS && requestCount <= MAX_REQUESTS
      && |allowances.repairScopes| <= 32
    }
  }

  // The identity and limits of one request about to be sent.
  datatype Request = Request(
    providerId: string,
    connectionId: string,
    model: string,
    forSearch: bool,
    protocol: Protocol,
    outputLimit: Option<nat>)
  {
    predicate Accepted() {
      && IsName(providerId) && IsName(connectionId) && IsName(model)
      && (protocol.Search? <==> forSearch)
      && (protocol.Search? <==> outputLimit.None?)
      && (outputLimit.Some? ==> outputLimit.value >= 1)
    }
  }

  // What the provider reported of a request.
  datatype Usage = Usage(cost: Option<nat>, requestId: Option<string>)

  const NO_USAGE := Usage(None, None)

  datatype RecordState = Unconfirmed | ResponseReceived | Finished

  datatype RequestRecord = RequestRecord(
    operationId: string,
    number: nat,
    target: Option<string>,
    request: Request,
    state: RecordState,
    usage: Usage,
    search: Option<string>)

  type RequestKey = (string, nat)

  // The rows of the shared settings table, by key prefix.
  datatype Rows = Rows(operations: map<string, OperationState>, requests: map<RequestKey, RequestRecord>)

  // ----- One executor's journal, as a value

  datatype Journal = Journal(target: Option<string>, failed: bool, state: Option<OperationState>)

  // What the environment does to one write: nothing, a storage error before or
  // after the commit became durable, or an exception of the caller's guard that
  // the journal either recognises as its own or lets through.
  datatype Weather = Clear | StorageError(durable: bool) | GuardError(recognised: bool)

  datatype Result = Ok | Refused | PassedThrough | Rejected

  datatype Write = Write(journal: Journal, rows: Rows, result: Result)

  // A write whose checks all passed, under the given weather.
  function Commit(before: Journal, rows: Rows, after: Journal, rows': Rows, weather: Weather): Write {
    match weather
    case Clear => Write(after, rows', Ok)
    case StorageError(durable) => Write(before.(failed := true), if durable then rows' else rows, Refused)
    case GuardError(recognised) => GuardFailed(before, rows, recognised)
  }

  function GuardFailed(journal: Journal, rows: Rows, recognised: bool): Write {
    if recognised then Write(journal.(failed := true), rows, Refused)
    else Write(journal, rows, PassedThrough)
  }

  function Refuse(journal: Journal, rows: Rows): Write {
    Write(journal.(failed := true), rows, Refused)
  }

  // The stored operation is the one the executor remembers.
  predicate Current(journal: Journal, rows: Rows, operationId: string) {
    && operationId in rows.operations && rows.operations[operationId].Decodes()
    && journal.state == Some(rows.operations[operationId])
  }

  predicate RecordMatches(rows: Rows, operationId: string, number: nat, target: Option<string>) {
    && (operationId, number) in rows.requests
    && var r := rows.requests[(operationId, number)];
       r.operationId == operationId && r.number == number && r.target == target
  }

  function NewState(operationId: string, target: string, maxAttempts: nat, elapsed: real, now: real): OperationState {
    OperationState(operationId, target, maxAttempts, now, now + elapsed, 0,
                   Allowances(false, {}, false, false, map[], {}))
  }

  function Opened(j: Journal, rows: Rows, operationId: string, maxAttempts: nat, elapsed: real, now: real,
                  weather: Weather): Write
  {
    if j.target.None? || j.failed then
      Write(j, rows, Refused)
    else if weather.GuardError? then
      GuardFailed(j, rows, weather.recognised)
    else if operationId !in rows.operations then
      var state := NewState(operationId, j.target.value, maxAttempts, elapsed, now);
      if (exists key <- rows.requests :: key.0 == operationId) || !state.Decodes() then
        Refuse(j, rows)
      else
        Commit(j, rows, j.(state := Some(state)), rows.(operations := rows.operations[operationId := state]), weather)
    else
      var state := rows.operations[operationId];
      if && state.Decodes() && state.operationId == operationId && state.target == j.target.value
         && state.requestCount <= state.maxAttempts
         && (forall number | 1 <= number <= state.requestCount ::
               RecordMatches(rows, operationId, number, j.target))
      then
        Commit(j, rows, j.(state := Some(state)), rows, weather)
      else
        Refuse(j, rows)
  }

  // Replacing the stored operation, allowed only while it is the remembered one.
  function Saved(j: Journal, rows: Rows, state: OperationState, rows': Rows, weather: Weather): Write {
    if weather.GuardError? then
      GuardFailed(j, rows, weather.recognised)
    else if Current(j, rows, state.operationId) then
      Commit(j, rows, j.(state := Some(state)),
             rows'.(operations := rows'.operations[state.operationId := state]), weather)
    else
      Refuse(j, rows)
  }

  function SavedAllowances(j: Journal, rows: Rows, allowances: Allowances, weather: Weather): Write {
    if j.state.None? then
      Write(j, rows, Ok)
    else if j.failed then
      Refuse(j, rows)
    else
      Saved(j, rows, j.state.value.(allowances := allowances), rows, weather)
  }

  function Started(j: Journal, rows: Rows, operationId: string, number: nat, request: Request, now: real,
                   weather: Weather): Write
  {
    var record := RequestRecord(operationId, number, j.target, request, Unconfirmed, NO_USAGE, None);
    var registered := rows.(requests := rows.requests[(operationId, number) := record]);
    if !request.Accepted() || !IsIdentifier(operationId) || !(1 <= number <= MAX_REQUESTS) then
      Write(j, rows, Rejected)
    else if j.failed then
      Refuse(j, rows)
    else if j.state.None? then
      if (operationId, number) in rows.requests then Refuse(j, rows)
      else Commit(j, rows, j, registered, if weather.GuardError? then Clear else weather)
    else
      var state := j.state.value;
      if number != state.requestCount + 1 || number > state.maxAttempts || now >= state.deadline then
        Refuse(j, rows)
      else if !weather.GuardError? && (operationId, number) in rows.requests then
        Refuse(j, rows)
      else
        Saved(j, rows, state.(requestCount := number), registered, weather)
  }

  // Receipts and endings update an existing record that is not finished; they
  // do not ask whether the executor is still current.
  function Updated(j: Journal, rows: Rows, operationId: string, number: nat, state: RecordState, usage: Usage,
                   weather: Weather): Write
  {
    if j.failed then
      Refuse(j, rows)
    else if (operationId, number) !in rows.requests then
      Refuse(j, rows)
    else
      var record := rows.requests[(operationId, number)];
      if record.operationId != operationId || record.number != number || record.state.Finished? then
        Refuse(j, rows)
      else
        var updated := record.(state := state, usage := usage);
        Commit(j, rows, j, rows.(requests := rows.requests[(operationId, number) := updated]),
               if weather.GuardError? then Clear else weather)
  }

  // The evidence of a search joins the receipt of its request.
  function SearchSaved(j: Journal, rows: Rows, operationId: string, number: nat, evidence: string, weather: Weather): Write
  {
    if j.failed then
      Refuse(j, rows)
    else if (operationId, number) !in rows.requests then
      Refuse(j, rows)
    else
      var record := rows.requests[(operationId, number)];
      if && record.operationId == operationId && record.number == number
         && record.request.protocol.Search? && record.state.ResponseReceived?
      then
        Commit(j, rows, j,
               rows.(requests := rows.requests[(operationId, number) := record.(search := Some(evidence))]),
               if weather.GuardError? then Clear else weather)
      else
        Refuse(j, rows)
  }

  // ----- The shared table and the journal object

  class Store {
    var rows: Rows

    constructor ()
      ensures rows == Rows(map[], map[])
    {
      rows := Rows(map[], map[]);
    }
  }

  class ModelRequestJournal {
    const store: Store
    const target: Option<string>
    var failed: bool
    var state: Option<OperationState>

    ghost function View(): Journal
      reads this
    {
      Journal(target, failed, state)
    }

    constructor (store: Store, target: Option<string>)
      ensures this.store == store && View() == Journal(target, false, None)
    {
      this.store, this.target := store, target;
      failed, state := false, None;
    }

    // The last step of every write: how the transaction ends.
    method Finish(rows': Rows, weather: Weather) returns (result: Result)
      modifies this`failed, store
      ensures Write(View(), store.rows, result)
           == Commit(old(View()), old(store.rows), old(View()), rows', weather)
    {
      match weather
      case Clear =>
        store.rows := rows';
        result := Ok;
      case StorageError(durable) =>
        if durable {
          store.rows := rows';
        }
        failed, result := true, Refused;
      case GuardError(recognised) =>
        if recognised {
          failed, result := true, Refused;
        } else {
          result := PassedThrough;
        }
    }

    method OpenOperation(operationId: string, maxAttempts: nat, elapsed: real, now: real, weather: Weather)
      returns (result: Result)
      modifies this, store
      ensures Write(View(), store.rows, result)
           == Opened(old(View()), old(store.rows), operationId, maxAttempts, elapsed, now, weather)
    {
      if target.None? || failed {
        return Refused;
      }
      var rows := store.rows;
      if weather.GuardError? {
        result := Finish(rows, weather);
        return;
      }
      var current: OperationState;
      if operationId !in rows.operations {
        current := NewState(operationId, target.value, maxAttempts, elapsed, now);
        if (exists key <- rows.requests :: key.0 == operationId) || !current.Decodes() {
          failed := true;
          return Refused;
        }
        rows := rows.(operations := rows.operations[operationId := current]);
      } else {
        current := rows.operations[operationId];
        if !current.Decodes() || current.operationId != operationId || current.target != target.value
           || current.requestCount > current.maxAttempts {
          failed := true;
          return Refused;
        }
        for number := 1 to current.requestCount + 1
          invariant !failed && state == old(state) && store.rows == rows
          invariant forall k | 1 <= k < number :: RecordMatches(rows, operationId, k, target)
        {
          if !RecordMatches(rows, operationId, number, target) {
            failed := true;
            return Refused;
          }
        }
      }
      result := Finish(rows, weather);
      if result.Ok? {
        state := Some(current);
      }
    }

    method SaveOperation(next: OperationState, rows': Rows, weather: Weather) returns (result: Result)
      requires !failed
      modifies this, store
      ensures Write(View(), store.rows, result) == Saved(old(View()), old(store.rows), next, rows', weather)
    {
      if weather.GuardError? {
        result := Finish(store.rows, weather);
        return;
      }
      var id := next.operationId;
      if id !in store.rows.operations || state.None? || !store.rows.operations[id].Decodes()
         || store.rows.operations[id] != state.value {
        failed := true;
        return Refused;
      }
      result := Finish(rows'.(operations := rows'.operations[id := next]), weather);
      if result.Ok? {
        state := Some(next);
      }
    }

    method SaveAllowances(allowances: Allowances, weather: Weather) returns (result: Result)
      modifies this, store
      ensures Write(View(), store.rows, result)
           == SavedAllowances(old(View()), old(store.rows), allowances, weather)
    {
      if state.None? {
        return Ok;
      }
      if failed {
        return Refused;
      }
      result := SaveOperation(state.value.(allowances := allowances), store.rows, weather);
    }

    method Start(operationId: string, number: nat, request: Request, now: real, weather: Weather)
      returns (result: Result)
      modifies this, store
      ensures Write(View(), store.rows, result)
           == Started(old(View()), old(store.rows), operationId, number, request, now, weather)
    {
      if !request.Accepted() || !IsIdentifier(operationId) || number < 1 || number > MAX_REQUESTS {
        return Rejected;
      }
      if failed {
        return Refused;
      }
      var key := (operationId, number);
      var record := RequestRecord(operationId, number, target, request, Unconfirmed, NO_USAGE, None);
      var rows := store.rows;
      if state.Some? {
        if number != state.value.requestCount + 1 || number > state.value.maxAttempts || now >= state.value.deadline {
          failed := true;
          return Refused;
        }
        if !weather.GuardError? && key in rows.requests {
          failed := true;
          return Refused;
        }
        rows := rows.(requests := rows.requests[key := record]);
        result := SaveOperation(state.value.(requestCount := number), rows, weather);
      } else {
        if key in rows.requests {
          failed := true;
          return Refused;
        }
        rows := rows.(requests := rows.requests[key := record]);
        result := Finish(rows, if weather.GuardError? then Clear else weather);
      }
    }

    method Update(operationId: string, number: nat, next: RecordState, usage: Usage, weather: Weather)
      returns (result: Result)
      modifies this, store
      ensures Write(View(), store.rows, result)
           == Updated(old(View()), old(store.rows), operationId, number, next, usage, weather)
    {
      var key := (operationId, number);
      if failed {
        return Refused;
      }
      if key !in store.rows.requests {
        failed := true;
        return Refused;
      }
      var record := store.rows.requests[key];
      if record.operationId != operationId || record.number != number || record.state.Finished? {
        failed := true;
        return Refused;
      }
      var updated := record.(state := next, usage := usage);
      result := Finish(store.rows.(requests := store.rows.requests[key := updated]),
                       if weather.GuardError? then Clear else weather);
    }

    method SaveSearch(operationId: string, number: nat, evidence: string, weather: Weather) returns (result: Result)
      modifies this, store
      ensures Write(View(), store.rows, result)
           == SearchSaved(old(View()), old(store.rows), operationId, number, evidence, weather)
    {
      var key := (operationId, number);
      if failed {
        return Refused;
      }
      if key !in store.rows.requests {
        failed := true;
        return Refused;
      }
      var record := store.rows.requests[key];
      if record.operationId != operationId || record.number != number || record.state.Finished? {
        failed := true;
        return Refused;
      }
      if !record.request.protocol.Search? || !record.state.ResponseReceived? {
        failed := true;
        return Refused;
      }
      var updated := record.(search := Some(evidence));
      result := Finish(store.rows.(requests := store.rows.requests[key := updated]),
                       if weather.GuardError? then Clear else weather);
    }
  }
}
