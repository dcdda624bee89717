// The exclusive pool of speech models (app/analysis/model_pool.py). Every step
// is what one thread does while it holds the condition.

module ModelPool {
  import opened Wrappers

  type Handle = nat // identity of an entry object
  type Model = nat // identity of a loaded model
  type Fingerprint = nat

  // Entries compare by these fields, not by identity.
  datatype Entry = Entry(
    role: string,
    identity: string,
    fingerprint: Fingerprint,
    model: Option<Model>,
    active: bool,
    lastUsed: real)

  // `users` says which running call holds which entry; `limits` remembers the
  // limit in force at the last admission of each role.
  datatype Pool = Pool(
    order: seq<Handle>,
    entries: map<Handle, Entry>,
    next: Handle,
    users: map<nat, Handle>,
    limits: map<string, nat>)

  const EMPTY := Pool([], map[], 0, map[], map[])

  // ----- Steps

  predicate Listed(order: seq<Handle>, entries: map<Handle, Entry>) {
    forall i | 0 <= i < |order| :: order[i] in entries
  }

  predicate Busy(e: Entry, role: string) {
    e.active && e.role == role
  }

  function ActiveCount(order: seq<Handle>, entries: map<Handle, Entry>, role: string): nat
    requires Listed(order, entries)
  {
    if order == [] then 0
    else
      ActiveCount(order[..|order| - 1], entries, role) + if Busy(entries[order[|order| - 1]], role) then 1 else 0
  }

  predicate Fits(e: Entry, role: string, identity: string, fingerprint: Fingerprint) {
    !e.active && e.role == role && e.identity == identity && e.fingerprint == fingerprint
  }

  // The first position from k on whose entry satisfies the test.
  function FirstFrom(p: Pool, test: Entry -> bool, k: nat): nat
    requires k <= |p.order| && Ok(p)
    decreases |p.order| - k
  {
    if k == |p.order| || test(p.entries[p.order[k]]) then k else FirstFrom(p, test, k + 1)
  }

  function Update(p: Pool, h: Handle, e: Entry): Pool {
    p.(entries := p.entries[h := e])
  }

  predicate Ok(p: Pool) {
    Listed(p.order, p.entries)
  }

  // The call takes an idle entry.
  function Reused(p: Pool, user: nat, h: Handle, limit: nat): Pool
    requires h in p.entries
  {
    Update(p, h, p.entries[h].(active := true))
    .(users := p.users[user := h], limits := p.limits[p.entries[h].role := limit])
  }

  // The call opens an entry of its own.
  function Opened(p: Pool, user: nat, e: Entry, limit: nat): Pool {
    Update(p, p.next, e)
    .(order := p.order + [p.next], next := p.next + 1, users := p.users[user := p.next], limits := p.limits[e.role := limit])
  }

  // A call is admitted while its role is below the limit; it takes the first
  // idle entry that fits, or opens a new one.
  function Entered(p: Pool, user: nat, role: string, identity: string, fingerprint: Fingerprint, limit: nat): Pool
    requires Ok(p)
  {
    if ActiveCount(p.order, p.entries, role) >= limit then p
    else
      var k := FirstFrom(p, (e: Entry) => Fits(e, role, identity, fingerprint), 0);
      if k < |p.order| then Reused(p, user, p.order[k], limit)
      else Opened(p, user, Entry(role, identity, fingerprint, None, true, 0.0), limit)
  }

  function ModelLoaded(p: Pool, h: Handle, model: Model): Pool
    requires h in p.entries
  {
    Update(p, h, p.entries[h].(model := Some(model)))
  }

  // The entry goes idle and has no user any more.
  function Released(p: Pool, user: nat, now: real): Pool
    requires user in p.users && p.users[user] in p.entries
  {
    var h := p.users[user];
    Update(p, h, p.entries[h].(active := false, lastUsed := now)).(users := p.users - {user})
  }

  function Without(order: seq<Handle>, k: nat): seq<Handle>
    requires k < |order|
  {
    order[..k] + order[k + 1..]
  }

  // Where the list first shows the fields of an entry.
  function Position(p: Pool, h: Handle): nat
    requires Ok(p) && h in p.entries
  {
    var e := p.entries[h];
    FirstFrom(p, (x: Entry) => x == e, 0)
  }

  // The end of a call, however it ended: an entry without a model is removed,
  // namely the first one with equal fields.
  function Left(p: Pool, user: nat, now: real): Pool
    requires Ok(p) && user in p.users && p.users[user] in p.entries
  {
    var released := Released(p, user, now);
    var k := Position(released, p.users[user]);
    if released.entries[p.users[user]].model.Some? || k >= |p.order| then released
    else released.(order := Without(p.order, k))
  }

  // What decides whether an idle entry is dropped.
  datatype Policy = Policy(force: bool, live: set<Fingerprint>, keep: set<string>, timeout: real, now: real)

  predicate Removable(e: Entry, policy: Policy) {
    && !e.active
    && (policy.force
        || e.fingerprint !in policy.live
        || (e.role !in policy.keep && policy.timeout > 0.0 && policy.now - e.lastUsed >= policy.timeout))
  }

  function Kept(order: seq<Handle>, entries: map<Handle, Entry>, policy: Policy): seq<Handle>
    requires Listed(order, entries)
  {
    if order == [] then []
    else
      var h := order[|order| - 1];
      Kept(order[..|order| - 1], entries, policy) + if Removable(entries[h], policy) then [] else [h]
  }

  function Cleaned(p: Pool, policy: Policy): Pool
    requires Ok(p)
  {
    p.(order := Kept(p.order, p.entries, policy))
  }

  // ----- The pool, updated in place

  class ModelPool {
    var order: seq<Handle>
    var entries: map<Handle, Entry>
    var next: Handle
    ghost var users: map<nat, Handle>
    ghost var limits: map<string, nat>

    ghost function View(): Pool
      reads this
    {
      Pool(order, entries, next, users, limits)
    }

    constructor ()
      ensures View() == EMPTY
    {
      order, entries, next, users, limits := [], map[], 0, map[], map[];
    }

    method FindFirst(test: Entry -> bool) returns (k: nat)
      requires Ok(View())
      ensures k == FirstFrom(View(), test, 0)
    {
      k := 0;
      while k < |order| && !test(entries[order[k]])
        invariant k <= |order| && FirstFrom(View(), test, 0) == FirstFrom(View(), test, k)
        decreases |order| - k
      {
        k := k + 1;
      }
    }

    // None while the role is full.
    method Enter(ghost user: nat, role: string, identity: string, fingerprint: Fingerprint, limit: nat)
      returns (entry: Option<Handle>)
      requires Ok(View())
      modifies this
      ensures View() == Entered(old(View()), user, role, identity, fingerprint, limit)
      ensures entry.None? ==> View() == old(View())
      ensures entry.Some? ==> user in users && users[user] == entry.value
    {
      var count := 0;
      for k := 0 to |order|
        invariant count == ActiveCount(order[..k], entries, role)
      {
        var e := entries[order[k]];
        assert order[..k + 1][..k] == order[..k];
        if e.active && e.role == role {
          count := count + 1;
        }
      }
      assert order[..|order|] == order;
      if count >= limit {
        return None;
      }
      var test := (e: Entry) => Fits(e, role, identity, fingerprint);
      var k := FindFirst(test);
      FirstFound(View(), test, 0);
      limits := limits[role := limit];
      if k < |order| {
        var h := order[k];
        entries, users := entries[h := entries[h].(active := true)], users[user := h];
        return Some(h);
      }
      var h := next;
      entries := entries[h := Entry(role, identity, fingerprint, None, true, 0.0)];
      order, next, users := order + [h], next + 1, users[user := h];
      entry := Some(h);
    }

    method SetModel(h: Handle, model: Model)
      requires h in entries
      modifies this`entries
      ensures View() == ModelLoaded(old(View()), h, model)
    {
      entries := entries[h := entries[h].(model := Some(model))];
    }

    method Leave(h: Handle, ghost user: nat, now: real)
      requires Ok(View()) && user in users && users[user] == h && h in entries
      modifies this
      ensures View() == Left(old(View()), user, now)
    {
      var e := entries[h].(active := false, lastUsed := now);
      entries, users := entries[h := e], users - {user};
      if e.model.None? {
        var test := (x: Entry) => x == e;
        var k := FindFirst(test);
        if k < |order| {
          order := order[..k] + order[k + 1..];
        }
      }
    }

    // One call from its admission to its cleaning, with nobody else in between.
    // `loaded` is what its loader returns, None when the loader fails.
    method Use(ghost user: nat, role: string, identity: string, fingerprint: Fingerprint, limit: nat,
               loaded: Option<Model>, now: real, policy: Policy)
      returns (admitted: bool, model: Option<Model>, ghost inside: Pool, ghost after: Pool)
      requires Safe(View()) && user !in users
      requires loaded.Some? ==> forall h <- order :: h in entries ==> !Holds(View(), h, loaded.value)
      modifies this
      ensures Safe(View()) && user !in users
      ensures admitted <==> old(ActiveCount(order, entries, role)) < limit
      ensures !admitted ==> View() == old(View())
      ensures admitted ==>
                && Safe(inside) && Safe(after)
                && inside == LoadedInto(Next(old(View()), Event.Enter(user, role, identity, fingerprint, limit)), user, loaded)
                && after == Next(inside, Event.Leave(user, now)) && View() == Next(after, CleanUp(policy))
                && user in inside.users && inside.users[user] in inside.entries
                && model == inside.entries[inside.users[user]].model
    {
      inside, after := View(), View();
      EnteredServesRequest(View(), user, role, identity, fingerprint, limit);
      NextIsSafe(View(), Event.Enter(user, role, identity, fingerprint, limit));
      NothingLoaded(View(), user, role, identity, fingerprint, limit, loaded);
      var entry := Enter(user, role, identity, fingerprint, limit);
      if entry.None? {
        return false, None, inside, after;
      }
      model := LoadModel(entry.value, user, loaded);
      inside := View();
      after := LeaveAndClean(entry.value, user, now, policy);
      admitted := true;
    }

    method LoadModel(h: Handle, ghost user: nat, loaded: Option<Model>) returns (model: Option<Model>)
      requires Safe(View()) && user in users && users[user] == h && h in entries
      requires loaded.Some? ==> forall g <- order :: g in entries ==> !Holds(View(), g, loaded.value)
      modifies this`entries
      ensures Safe(View()) && View() == LoadedInto(old(View()), user, loaded)
      ensures h in entries && model == entries[h].model
    {
      LoadedIntoIsSafe(View(), user, loaded);
      if entries[h].model.None? && loaded.Some? {
        SetModel(h, loaded.value);
      }
      model := entries[h].model;
    }

    method LeaveAndClean(h: Handle, ghost user: nat, now: real, policy: Policy) returns (ghost after: Pool)
      requires Safe(View()) && user in users && users[user] == h && h in entries
      modifies this
      ensures Safe(after) && after == Next(old(View()), Event.Leave(user, now))
      ensures Safe(View()) && View() == Next(after, CleanUp(policy)) && user !in users
    {
      LeavingIsSafe(View(), user, now, policy);
      Leave(h, user, now);
      after := View();
      var _ := CleanupIdle(policy);
    }

    // The fields of the entries to drop.
    method ListRemovable(policy: Policy) returns (removed: seq<Entry>)
      requires Ok(View())
      ensures |removed| + |Kept(order, entries, policy)| == |order|
      ensures forall e :: e in removed <==> exists h :: h in order && h in entries && entries[h] == e && Removable(e, policy)
    {
      removed := [];
      for k := 0 to |order|
        invariant |removed| + |Kept(order[..k], entries, policy)| == k
        invariant forall e <- removed :: exists h :: h in order && h in entries && entries[h] == e && Removable(e, policy)
        invariant forall i | 0 <= i < k :: Removable(entries[order[i]], policy) ==> entries[order[i]] in removed
      {
        var e := entries[order[k]];
        assert order[..k + 1][..k] == order[..k];
        if Removable(e, policy) {
          removed := removed + [e];
        }
      }
      assert order[..|order|] == order;
    }

    // Filters by equality of fields, as the source does.
    method CleanupIdle(policy: Policy) returns (removedCount: nat)
      requires Ok(View())
      modifies this`order
      ensures View() == Cleaned(old(View()), policy)
      ensures removedCount + |order| == |old(order)|
      ensures forall h <- order :: h in old(order)
      ensures forall h <- old(order) | entries[h].active :: h in order
      ensures policy.force ==> forall h <- old(order) | !entries[h].active :: h !in order
      ensures !policy.force ==> forall h <- old(order) | !entries[h].active && entries[h].fingerprint !in policy.live :: h !in order
      ensures !policy.force ==> forall h <- old(order) | !entries[h].active && entries[h].fingerprint in policy.live ::
                h in order <==> entries[h].role in policy.keep || policy.timeout <= 0.0
                                || policy.now < entries[h].lastUsed + policy.timeout
    {
      ghost var p := View();
      var removed := ListRemovable(policy);
      var kept: seq<Handle> := [];
      for k := 0 to |order|
        invariant order == p.order && kept == Kept(order[..k], entries, policy)
      {
        var h := order[k];
        assert order[..k + 1][..k] == order[..k];
        if entries[h] !in removed {
          kept := kept + [h];
        }
      }
      assert order[..|order|] == order;
      CleaningDrops(p, policy);
      order := kept;
      removedCount := |removed|;
    }
  }

  // ----- Every interleaving

  datatype Event =
    | Enter(user: nat, role: string, identity: string, fingerprint: Fingerprint, limit: nat)
    | Load(user: nat, model: Model)
    | Leave(user: nat, now: real)
    | CleanUp(policy: Policy)

  predicate Holds(p: Pool, h: Handle, model: Model)
    requires h in p.entries
  {
    p.entries[h].model == Some(model)
  }

  // A running call loads at most one model and every loader makes a new object.
  predicate MayLoad(p: Pool, user: nat, model: Model) {
    && user in p.users && p.users[user] in p.entries && p.entries[p.users[user]].model.None?
    && forall h <- p.order :: h in p.entries ==> !Holds(p, h, model)
  }

  function Next(p: Pool, event: Event): Pool
    requires Ok(p)
  {
    match event
    case Enter(user, role, identity, fingerprint, limit) =>
      if user in p.users then p else Entered(p, user, role, identity, fingerprint, limit)
    case Load(user, model) =>
      if MayLoad(p, user, model) then ModelLoaded(p, p.users[user], model) else p
    case Leave(user, now) =>
      if user in p.users && p.users[user] in p.entries then Left(p, user, now) else p
    case CleanUp(policy) => Cleaned(p, policy)
  }

  // A call that was given an entry without a model loads one.
  function LoadedInto(p: Pool, user: nat, loaded: Option<Model>): Pool
    requires Ok(p)
  {
    if loaded.Some? then Next(p, Load(user, loaded.value)) else p
  }

  // Entering holds no model that was not held before.
  lemma NothingLoaded(p: Pool, user: nat, role: string, identity: string, fingerprint: Fingerprint, limit: nat,
                      loaded: Option<Model>)
    requires loaded.Some? ==> forall h <- p.order :: h in p.entries ==> !Holds(p, h, loaded.value)
    requires Safe(p)
    ensures var p' := Entered(p, user, role, identity, fingerprint, limit);
            loaded.Some? ==> forall h <- p'.order :: h in p'.entries ==> !Holds(p', h, loaded.value)
  {
    FirstFound(p, (e: Entry) => Fits(e, role, identity, fingerprint), 0);
  }

  lemma LeavingIsSafe(p: Pool, user: nat, now: real, policy: Policy)
    requires Safe(p) && user in p.users
    ensures var after := Left(p, user, now);
            && Safe(after) && after == Next(p, Event.Leave(user, now)) && user !in after.users
            && Safe(Cleaned(after, policy)) && Cleaned(after, policy) == Next(after, CleanUp(policy))
  {
    LeftIsSafe(p, user, now);
    CleanedIsSafe(Left(p, user, now), policy);
  }

  lemma LoadedIntoIsSafe(p: Pool, user: nat, loaded: Option<Model>)
    requires Safe(p) && user in p.users
    ensures Safe(LoadedInto(p, user, loaded))
  {
    if loaded.Some? {
      NextIsSafe(p, Load(user, loaded.value));
    }
  }

  ghost predicate Distinct(order: seq<Handle>) {
    forall i, j | 0 <= i < j < |order| :: order[i] != order[j]
  }

  // Idle entries hold a model, and no model is held twice.
  ghost predicate ModelsOk(p: Pool)
    requires Ok(p)
  {
    (forall h | h in p.order && h in p.entries :: p.entries[h].active || p.entries[h].model.Some?) && ModelsDiffer(p)
  }

  ghost predicate ModelsDiffer(p: Pool) {
    forall h, g | h in p.order && g in p.order && h in p.entries && g in p.entries && h != g ::
      p.entries[h].model.Some? ==> p.entries[h].model != p.entries[g].model
  }

  ghost predicate Used(p: Pool, h: Handle) {
    exists u :: u in p.users && p.users[u] == h
  }

  // Every active entry has one user and every user one active entry.
  ghost predicate UsersOk(p: Pool)
    requires Ok(p)
  {
    && (forall u <- p.users :: p.users[u] in p.order && p.users[u] in p.entries && p.entries[p.users[u]].active)
    && (forall u, v | u in p.users && v in p.users && p.users[u] == p.users[v] :: u == v)
    && (forall h | h in p.order && h in p.entries && p.entries[h].active :: Used(p, h))
  }

  // A role has no more active users than its limit allowed at the last admission.
  ghost predicate LimitsOk(p: Pool)
    requires Ok(p)
  {
    forall role: string ::
      ActiveCount(p.order, p.entries, role) <= if role in p.limits then p.limits[role] else 0
  }

  ghost predicate Safe(p: Pool) {
    && Ok(p) && Distinct(p.order) && (forall h <- p.entries :: h < p.next)
    && ModelsOk(p) && UsersOk(p) && LimitsOk(p)
  }

  // ----- Counting active users

  lemma {:induction false} CountSplit(a: seq<Handle>, b: seq<Handle>, entries: map<Handle, Entry>, role: string)
    requires Listed(a + b, entries) && Listed(a, entries) && Listed(b, entries)
    ensures ActiveCount(a + b, entries, role) == ActiveCount(a, entries, role) + ActiveCount(b, entries, role)
  {
    if b == [] {
      assert a + b == a;
    } else {
      assert (a + b)[..|a + b| - 1] == a + b[..|b| - 1];
      CountSplit(a, b[..|b| - 1], entries, role);
    }
  }

  lemma {:induction false} CountUpdate(order: seq<Handle>, entries: map<Handle, Entry>, h: Handle, e: Entry, role: string)
    requires Listed(order, entries) && Distinct(order) && h in entries
    ensures ActiveCount(order, entries[h := e], role) + (if h in order && Busy(entries[h], role) then 1 else 0)
         == ActiveCount(order, entries, role) + (if h in order && Busy(e, role) then 1 else 0)
  {
    if order != [] {
      var init, last := order[..|order| - 1], order[|order| - 1];
      assert order == init + [last];
      CountUpdate(init, entries, h, e, role);
    }
  }

  lemma {:induction false} KeptMembers(order: seq<Handle>, entries: map<Handle, Entry>, policy: Policy)
    requires Listed(order, entries)
    ensures var kept := Kept(order, entries, policy);
            && Listed(kept, entries)
            && (forall i | 0 <= i < |kept| :: kept[i] in order && !Removable(entries[kept[i]], policy))
            && (forall i | 0 <= i < |order| && !Removable(entries[order[i]], policy) :: order[i] in kept)
            && (Distinct(order) ==> Distinct(kept))
  {
    if order != [] {
      var init, last := order[..|order| - 1], order[|order| - 1];
      assert order == init + [last];
      KeptMembers(init, entries, policy);
    }
  }

  // Only idle entries are dropped, so nobody stops counting.
  lemma {:induction false} KeptCount(order: seq<Handle>, entries: map<Handle, Entry>, policy: Policy, role: string)
    requires Listed(order, entries) && Listed(Kept(order, entries, policy), entries)
    ensures ActiveCount(Kept(order, entries, policy), entries, role) == ActiveCount(order, entries, role)
  {
    if order != [] {
      var init, last := order[..|order| - 1], order[|order| - 1];
      KeptMembers(init, entries, policy);
      KeptCount(init, entries, policy, role);
      if !Removable(entries[last], policy) {
        CountSplit(Kept(init, entries, policy), [last], entries, role);
      } else {
        assert Kept(init, entries, policy) + [] == Kept(init, entries, policy);
      }
    }
  }

  // ----- Each step is safe

  lemma CleanedIsSafe(p: Pool, policy: Policy)
    requires Safe(p)
    ensures Safe(Cleaned(p, policy))
  {
    KeptMembers(p.order, p.entries, policy);
    var p' := Cleaned(p, policy);
    forall role: string
      ensures ActiveCount(p'.order, p'.entries, role) <= if role in p.limits then p.limits[role] else 0
    {
      KeptCount(p.order, p.entries, policy, role);
    }
    forall u <- p'.users ensures p'.users[u] in p'.order {
      var i :| 0 <= i < |p.order| && p.order[i] == p.users[u];
    }
  }

  lemma LoadedIsSafe(p: Pool, user: nat, model: Model)
    requires Safe(p) && MayLoad(p, user, model)
    ensures Safe(ModelLoaded(p, p.users[user], model))
  {
    var h := p.users[user];
    var e := p.entries[h].(model := Some(model));
    var p' := ModelLoaded(p, h, model);
    forall role: string
      ensures ActiveCount(p'.order, p'.entries, role) <= if role in p.limits then p.limits[role] else 0
    {
      CountUpdate(p.order, p.entries, h, e, role);
    }
    forall x, g | x in p'.order && g in p'.order && x in p'.entries && g in p'.entries && x != g
      ensures p'.entries[x].model.Some? ==> p'.entries[x].model != p'.entries[g].model
    {
      assert x != h ==> !Holds(p, x, model);
      assert g != h ==> !Holds(p, g, model);
    }
    forall x | x in p'.order && x in p'.entries && p'.entries[x].active ensures Used(p', x) {
      assert Used(p, x);
    }
  }

  // The first position found satisfies the test, and a position where the test
  // holds alone is the one found.
  lemma {:induction false} FirstFound(p: Pool, test: Entry -> bool, k: nat)
    requires Ok(p) && k <= |p.order|
    ensures var f := FirstFrom(p, test, k);
            && k <= f <= |p.order| && (f < |p.order| ==> test(p.entries[p.order[f]]))
            && forall i | k <= i < f :: !test(p.entries[p.order[i]])
    decreases |p.order| - k
  {
    if k < |p.order| && !test(p.entries[p.order[k]]) {
      FirstFound(p, test, k + 1);
    }
  }

  lemma {:induction false} CountOther(order: seq<Handle>, entries: map<Handle, Entry>, h: Handle, e: Entry, role: string)
    requires Listed(order, entries) && h !in order
    ensures Listed(order, entries[h := e])
    ensures ActiveCount(order, entries[h := e], role) == ActiveCount(order, entries, role)
  {
    if order != [] {
      CountOther(order[..|order| - 1], entries, h, e, role);
    }
  }

  // A new user of an entry keeps the users of all others.
  lemma UserAdded(p: Pool, p': Pool, user: nat, h: Handle)
    requires Ok(p) && UsersOk(p) && Ok(p') && user !in p.users && p'.users == p.users[user := h]
    requires h in p'.order && h in p'.entries && p'.entries[h].active && forall u <- p.users :: p.users[u] != h
    requires forall x | x != h :: (x in p'.order <==> x in p.order)
                                  && (x in p.order && x in p.entries ==> x in p'.entries && p'.entries[x] == p.entries[x])
    ensures UsersOk(p')
  {
    forall x | x in p'.order && x in p'.entries && p'.entries[x].active ensures Used(p', x) {
      if x == h {
        assert user in p'.users && p'.users[user] == h;
      } else {
        assert x in p.order && Used(p, x);
        var u :| u in p.users && p.users[u] == x;
        assert u in p'.users && p'.users[u] == x;
      }
    }
  }

  lemma ReusedLimits(p: Pool, user: nat, h: Handle, limit: nat)
    requires Safe(p) && h in p.order && h in p.entries && !p.entries[h].active
    requires ActiveCount(p.order, p.entries, p.entries[h].role) < limit
    ensures Ok(Reused(p, user, h, limit)) && LimitsOk(Reused(p, user, h, limit))
  {
    var p' := Reused(p, user, h, limit);
    forall r: string
      ensures ActiveCount(p'.order, p'.entries, r) <= if r in p'.limits then p'.limits[r] else 0
    {
      CountUpdate(p.order, p.entries, h, p.entries[h].(active := true), r);
    }
  }

  lemma ReusedIsSafe(p: Pool, user: nat, h: Handle, limit: nat)
    requires Safe(p) && user !in p.users && h in p.order && h in p.entries && !p.entries[h].active
    requires ActiveCount(p.order, p.entries, p.entries[h].role) < limit
    ensures Safe(Reused(p, user, h, limit))
  {
    ReusedLimits(p, user, h, limit);
    UserAdded(p, Reused(p, user, h, limit), user, h);
  }

  lemma OpenedLimits(p: Pool, user: nat, e: Entry, limit: nat)
    requires Safe(p) && e.active && ActiveCount(p.order, p.entries, e.role) < limit
    ensures Ok(Opened(p, user, e, limit)) && LimitsOk(Opened(p, user, e, limit))
  {
    var p' := Opened(p, user, e, limit);
    forall r: string
      ensures ActiveCount(p'.order, p'.entries, r) <= if r in p'.limits then p'.limits[r] else 0
    {
      CountOther(p.order, p.entries, p.next, e, r);
      CountSplit(p.order, [p.next], p'.entries, r);
    }
  }

  lemma OpenedModels(p: Pool, user: nat, e: Entry, limit: nat)
    requires Safe(p) && e.active && e.model.None?
    ensures var p' := Opened(p, user, e, limit); Ok(p') && Distinct(p'.order) && ModelsOk(p')
  {
  }

  lemma OpenedUsers(p: Pool, user: nat, e: Entry, limit: nat)
    requires Ok(p) && UsersOk(p) && user !in p.users && e.active
    requires p.next !in p.order && p.next !in p.entries
    ensures Ok(Opened(p, user, e, limit)) && UsersOk(Opened(p, user, e, limit))
  {
    var p' := Opened(p, user, e, limit);
    forall x | x != p.next
      ensures x in p'.order <==> x in p.order
      ensures x in p.order && x in p.entries ==> x in p'.entries && p'.entries[x] == p.entries[x]
    {
    }
    assert p'.order[|p.order|] == p.next;
    UserAdded(p, p', user, p.next);
  }

  lemma OpenedIsSafe(p: Pool, user: nat, e: Entry, limit: nat)
    requires Safe(p) && user !in p.users && e.active && e.model.None?
    requires ActiveCount(p.order, p.entries, e.role) < limit
    ensures Safe(Opened(p, user, e, limit))
  {
    assert p.next !in p.entries && p.next !in p.order;
    OpenedLimits(p, user, e, limit);
    OpenedModels(p, user, e, limit);
    OpenedUsers(p, user, e, limit);
  }

  // ----- Leaving

  lemma ReleasedLimits(p: Pool, user: nat, now: real)
    requires Safe(p) && user in p.users
    ensures LimitsOk(Released(p, user, now))
  {
    var h := p.users[user];
    forall r: string
      ensures ActiveCount(p.order, Released(p, user, now).entries, r) <= if r in p.limits then p.limits[r] else 0
    {
      CountUpdate(p.order, p.entries, h, p.entries[h].(active := false, lastUsed := now), r);
    }
  }

  lemma ReleasedUsers(p: Pool, user: nat, now: real)
    requires Safe(p) && user in p.users
    ensures UsersOk(Released(p, user, now))
  {
    var p' := Released(p, user, now);
    forall x | x in p'.order && x in p'.entries && p'.entries[x].active ensures Used(p', x) {
      assert Used(p, x);
      var u :| u in p.users && p.users[u] == x;
      assert u in p'.users && p'.users[u] == x;
    }
  }

  // Removing an entry that is idle, wherever it is listed.
  lemma DropIdle(order: seq<Handle>, entries: map<Handle, Entry>, k: nat, role: string)
    requires Listed(order, entries) && k < |order| && !entries[order[k]].active
    ensures Listed(Without(order, k), entries)
    ensures ActiveCount(Without(order, k), entries, role) == ActiveCount(order, entries, role)
  {
    var a, h, b := order[..k], order[k], order[k + 1..];
    assert order == (a + [h]) + b;
    CountSplit(a + [h], b, entries, role);
    CountSplit(a, [h], entries, role);
    CountSplit(a, b, entries, role);
  }

  lemma RemainingMembers(order: seq<Handle>, k: nat)
    requires Distinct(order) && k < |order|
    ensures Distinct(Without(order, k)) && forall h :: h in Without(order, k) <==> h in order && h != order[k]
  {
    var rest := Without(order, k);
    forall h | h in order && h != order[k] ensures h in rest {
      var i :| 0 <= i < |order| && order[i] == h;
      assert i < k ==> rest[i] == h;
      assert i > k ==> rest[i - 1] == h;
    }
  }

  // The removal by equality of fields hits exactly the leaving entry: every
  // other idle entry holds a model.
  lemma RemovesItself(p: Pool, user: nat, now: real)
    requires Safe(p) && user in p.users && p.entries[p.users[user]].model.None?
    ensures var k := Position(Released(p, user, now), p.users[user]);
            k < |p.order| && p.order[k] == p.users[user]
  {
    var h := p.users[user];
    var released := Released(p, user, now);
    var e := released.entries[h];
    FirstFound(released, (x: Entry) => x == e, 0);
    var i :| 0 <= i < |p.order| && p.order[i] == h;
  }

  lemma DroppedLimits(p: Pool, k: nat)
    requires Ok(p) && LimitsOk(p) && k < |p.order| && !p.entries[p.order[k]].active
    ensures Ok(p.(order := Without(p.order, k))) && LimitsOk(p.(order := Without(p.order, k)))
  {
    forall r: string
      ensures Listed(Without(p.order, k), p.entries)
      ensures ActiveCount(Without(p.order, k), p.entries, r) <= if r in p.limits then p.limits[r] else 0
    {
      DropIdle(p.order, p.entries, k, r);
    }
    DropIdle(p.order, p.entries, k, "");
  }

  // Everything but the models of a released entry is in order.
  lemma ReleasedModels(p: Pool, user: nat, now: real)
    requires Safe(p) && user in p.users
    ensures var q := Released(p, user, now);
            forall h | h in q.order && h in q.entries && h != p.users[user] :: q.entries[h].active || q.entries[h].model.Some?
    ensures ModelsDiffer(Released(p, user, now))
  {
  }

  lemma DroppedModels(q: Pool, k: nat)
    requires Ok(q) && Distinct(q.order) && ModelsDiffer(q) && k < |q.order|
    requires forall h | h in q.order && h in q.entries && h != q.order[k] :: q.entries[h].active || q.entries[h].model.Some?
    ensures var rest := q.(order := Without(q.order, k)); Ok(rest) && Distinct(rest.order) && ModelsOk(rest)
  {
    RemainingMembers(q.order, k);
  }

  lemma StayingIsSafe(p: Pool, user: nat, now: real)
    requires Safe(p) && user in p.users && p.entries[p.users[user]].model.Some?
    ensures Safe(Released(p, user, now))
  {
    ReleasedLimits(p, user, now);
    ReleasedUsers(p, user, now);
    ReleasedModels(p, user, now);
  }

  lemma RemovedIsSafe(p: Pool, user: nat, now: real, k: nat)
    requires Safe(p) && user in p.users && k < |p.order| && p.order[k] == p.users[user]
    ensures Safe(Released(p, user, now).(order := Without(p.order, k)))
  {
    var released := Released(p, user, now);
    ReleasedLimits(p, user, now);
    ReleasedUsers(p, user, now);
    ReleasedModels(p, user, now);
    DroppedLimits(released, k);
    DroppedModels(released, k);
  }

  lemma LeftIsSafe(p: Pool, user: nat, now: real)
    requires Safe(p) && user in p.users
    ensures Safe(Left(p, user, now))
  {
    if p.entries[p.users[user]].model.None? {
      RemovesItself(p, user, now);
      RemovedIsSafe(p, user, now, Position(Released(p, user, now), p.users[user]));
    } else {
      StayingIsSafe(p, user, now);
    }
  }

  lemma NextIsSafe(p: Pool, event: Event)
    requires Safe(p)
    ensures Safe(Next(p, event))
  {
    match event
    case Enter(user, role, identity, fingerprint, limit) =>
      if user !in p.users && ActiveCount(p.order, p.entries, role) < limit {
        var test := (e: Entry) => Fits(e, role, identity, fingerprint);
        FirstFound(p, test, 0);
        var k := FirstFrom(p, test, 0);
        if k < |p.order| {
          ReusedIsSafe(p, user, p.order[k], limit);
        } else {
          OpenedIsSafe(p, user, Entry(role, identity, fingerprint, None, true, 0.0), limit);
        }
      }
    case Load(user, model) =>
      if MayLoad(p, user, model) {
        LoadedIsSafe(p, user, model);
      }
    case Leave(user, now) =>
      if user in p.users {
        LeftIsSafe(p, user, now);
      }
    case CleanUp(policy) => CleanedIsSafe(p, policy);
  }

  // What some sequence of steps leads to.
  ghost predicate Reachable(p: Pool, events: seq<Event>)
    decreases |events|
  {
    if events == [] then p == EMPTY
    else
      exists q :: Ok(q) && Reachable(q, events[..|events| - 1]) && p == Next(q, events[|events| - 1])
  }

  // In every interleaving no model has two users, no role exceeds the limit of
  // its last admission, and every idle entry holds a model.
  lemma {:induction false} ReachableIsSafe(p: Pool, events: seq<Event>)
    requires Reachable(p, events)
    ensures Safe(p)
    decreases |events|
  {
    if events != [] {
      var q :| Ok(q) && Reachable(q, events[..|events| - 1]) && p == Next(q, events[|events| - 1]);
      ReachableIsSafe(q, events[..|events| - 1]);
      NextIsSafe(q, events[|events| - 1]);
    }
  }

  // A call enters exactly when its role is below the limit; it gets an entry of
  // what it asked for that nobody used, and a new one only when no idle entry fits.
  lemma EnteredServesRequest(p: Pool, user: nat, role: string, identity: string, fingerprint: Fingerprint, limit: nat)
    requires Safe(p) && user !in p.users
    ensures var p' := Entered(p, user, role, identity, fingerprint, limit);
            if ActiveCount(p.order, p.entries, role) >= limit then p' == p
            else
              && user in p'.users && p'.users[user] in p'.order && p'.users[user] in p'.entries
              && var (h, e) := (p'.users[user], p'.entries[p'.users[user]]);
                 && e.active && e.role == role && e.identity == identity && e.fingerprint == fingerprint
                 && (h in p.order ==> h in p.entries && !p.entries[h].active && e.model == p.entries[h].model && e.model.Some?)
                 && (h !in p.order ==> forall g <- p.order :: g in p.entries && !Fits(p.entries[g], role, identity, fingerprint))
  {
    var test := (e: Entry) => Fits(e, role, identity, fingerprint);
    FirstFound(p, test, 0);
    var k := FirstFrom(p, test, 0);
    if ActiveCount(p.order, p.entries, role) < limit && k < |p.order| {
      assert p.order[k] in p.order;
    }
  }

  // A call with a model leaves its entry listed, idle and loaded, for the next one.
  lemma LoadedEntryStays(p: Pool, user: nat, now: real)
    requires Safe(p) && user in p.users && p.entries[p.users[user]].model.Some?
    ensures var (h, p') := (p.users[user], Left(p, user, now));
            && p'.order == p.order && h in p'.order && p'.entries.Keys == p.entries.Keys && p'.users == p.users - {user}
            && p'.entries[h] == p.entries[h].(active := false, lastUsed := now)
            && forall g <- p.entries | g != h :: p'.entries[g] == p.entries[g]
  {
  }

  // A call that fails to load leaves no entry behind and takes none away.
  lemma FailedLoadLeavesNothing(p: Pool, user: nat, now: real)
    requires Safe(p) && user in p.users && p.entries[p.users[user]].model.None?
    ensures forall h :: h in Left(p, user, now).order <==> h in p.order && h != p.users[user]
  {
    RemovesItself(p, user, now);
    RemainingMembers(p.order, Position(Released(p, user, now), p.users[user]));
  }

  // Cleaning never drops an active entry, although it compares fields. Forced, it
  // drops every idle one. Otherwise it drops those of retired settings, and of
  // the others exactly those whose role is not kept loaded and whose last use is
  // a positive timeout or more ago.
  lemma CleaningDropsExactly(p: Pool, policy: Policy, h: Handle)
    requires Ok(p) && h in p.order
    ensures var (e, stays) := (p.entries[h], h in Cleaned(p, policy).order);
            && (e.active ==> stays)
            && (!e.active && policy.force ==> !stays)
            && (!e.active && !policy.force && e.fingerprint !in policy.live ==> !stays)
            && (!e.active && !policy.force && e.fingerprint in policy.live ==>
                  (stays <==> e.role in policy.keep || policy.timeout <= 0.0 || policy.now < e.lastUsed + policy.timeout))
  {
    KeptMembers(p.order, p.entries, policy);
  }

  lemma CleaningDrops(p: Pool, policy: Policy)
    requires Ok(p)
    ensures var order := Cleaned(p, policy).order;
            && (forall h <- order :: h in p.order)
            && (forall h <- p.order | p.entries[h].active :: h in order)
            && (policy.force ==> forall h <- p.order | !p.entries[h].active :: h !in order)
            && (!policy.force ==>
                  forall h <- p.order | !p.entries[h].active && p.entries[h].fingerprint !in policy.live :: h !in order)
            && (!policy.force ==>
                  forall h <- p.order | !p.entries[h].active && p.entries[h].fingerprint in policy.live ::
                    h in order <==> p.entries[h].role in policy.keep || policy.timeout <= 0.0
                                    || policy.now < p.entries[h].lastUsed + policy.timeout)
  {
    KeptMembers(p.order, p.entries, policy);
    forall h <- p.order ensures p.entries[h].active ==> h in Cleaned(p, policy).order {
      CleaningDropsExactly(p, policy, h);
    }
  }

  // ----- How long an entry has been idle

  // The pools that a run passes through.
  ghost predicate Trace(pools: seq<Pool>, events: seq<Event>) {
    && |pools| == |events| + 1 && pools[0] == EMPTY
    && (forall i | 0 <= i < |pools| :: Ok(pools[i]))
    && (forall i {:trigger events[i]} | 0 <= i < |events| :: pools[i + 1] == Next(pools[i], events[i]))
  }

  lemma TracePrefix(pools: seq<Pool>, events: seq<Event>)
    requires Trace(pools, events) && events != []
    ensures Trace(pools[..|events|], events[..|events| - 1])
  {
    var (before, first) := (pools[..|events|], events[..|events| - 1]);
    forall i | 0 <= i < |first| ensures before[i + 1] == Next(before[i], first[i]) {
      assert first[i] == events[i];
    }
  }

  lemma {:induction false} TraceIsReachable(pools: seq<Pool>, events: seq<Event>)
    requires Trace(pools, events)
    ensures Reachable(pools[|events|], events)
    decreases |events|
  {
    if events != [] {
      TracePrefix(pools, events);
      TraceIsReachable(pools[..|events|], events[..|events| - 1]);
      assert pools[|events| - 1 + 1] == Next(pools[|events| - 1], events[|events| - 1]);
    }
  }

  // The user holds the entry and leaves it at this time.
  ghost predicate Leaves(p: Pool, event: Event, h: Handle, now: real) {
    event.Leave? && event.user in p.users && p.users[event.user] == h && event.now == now
  }

  ghost predicate IdleSince(p: Pool, h: Handle, now: real) {
    h in p.order && h in p.entries && !p.entries[h].active && p.entries[h].lastUsed == now
  }

  // An entry that is idle after a step was left at that step or was idle before.
  lemma StepsIdle(p: Pool, event: Event, h: Handle, now: real)
    requires Safe(p) && Ok(Next(p, event)) && IdleSince(Next(p, event), h, now)
    ensures Leaves(p, event, h, now) || IdleSince(p, h, now)
  {
    match event
    case Enter(user, role, identity, fingerprint, limit) =>
      FirstFound(p, (e: Entry) => Fits(e, role, identity, fingerprint), 0);
    case Load(_, _) =>
    case Leave(user, at) =>
      if user in p.users {
        LeftIdle(p, user, at, h, now);
      }
    case CleanUp(policy) =>
      KeptMembers(p.order, p.entries, policy);
  }

  lemma LeftIdle(p: Pool, user: nat, at: real, h: Handle, now: real)
    requires Safe(p) && user in p.users && IdleSince(Left(p, user, at), h, now)
    ensures (p.users[user] == h && at == now) || IdleSince(p, h, now)
  {
    var released := Released(p, user, at);
    var k := Position(released, p.users[user]);
    assert h in p.order by {
      if k < |p.order| {
        RemainingMembers(p.order, k);
      }
    }
  }

  lemma LastStepIdle(pools: seq<Pool>, events: seq<Event>, h: Handle, now: real)
    requires Trace(pools, events) && events != [] && IdleSince(pools[|events|], h, now)
    ensures var n := |events| - 1; Leaves(pools[n], events[n], h, now) || IdleSince(pools[n], h, now)
  {
    var n := |events| - 1;
    TracePrefix(pools, events);
    TraceIsReachable(pools[..n + 1], events[..n]);
    ReachableIsSafe(pools[n], events[..n]);
    StepsIdle(pools[n], events[n], h, now);
  }

  // A listed idle entry was left by its last user at the time it remembers, and
  // nobody has used it since.
  lemma {:induction false} IdleSinceLastLeave(pools: seq<Pool>, events: seq<Event>, h: Handle, now: real) returns (j: nat)
    requires Trace(pools, events) && IdleSince(pools[|events|], h, now)
    ensures j < |events| && Leaves(pools[j], events[j], h, now)
    ensures forall k | j < k <= |events| :: IdleSince(pools[k], h, now)
    decreases |events|
  {
    if events != [] {
      LastStepIdle(pools, events, h, now);
      j := |events| - 1;
      if !Leaves(pools[j], events[j], h, now) {
        var (before, first) := (pools[..|events|], events[..|events| - 1]);
        TracePrefix(pools, events);
        j := IdleSinceLastLeave(before, first, h, now);
        assert before[j] == pools[j] && first[j] == events[j];
        forall k | j < k <= |events| ensures IdleSince(pools[k], h, now) {
          assert k < |events| ==> IdleSince(before[k], h, now);
        }
      }
    }
  }

  // So along every run an entry of current settings whose role is not kept loaded
  // goes exactly when the timeout has passed since its last user left.
  lemma UnloadedExactlyWhen(pools: seq<Pool>, events: seq<Event>, h: Handle, policy: Policy) returns (j: nat)
    requires Trace(pools, events)
    requires h in pools[|events|].order && !pools[|events|].entries[h].active
    requires !policy.force && policy.timeout > 0.0
    requires var e := pools[|events|].entries[h]; e.fingerprint in policy.live && e.role !in policy.keep
    ensures j < |events| && events[j].Leave? && Leaves(pools[j], events[j], h, events[j].now)
    ensures forall k | j < k <= |events| :: IdleSince(pools[k], h, events[j].now)
    ensures h in Next(pools[|events|], CleanUp(policy)).order <==> policy.now < events[j].now + policy.timeout
  {
    j := IdleSinceLastLeave(pools, events, h, pools[|events|].entries[h].lastUsed);
    CleaningDropsExactly(pools[|events|], policy, h);
  }
}
