// The table of cached model clients, their leases and their retirement
// (app/analysis/llm.py). Every step is what one thread does under the lock, or
// one close that happens after the lock was left.

module ClientTable {
  import opened Wrappers

  type Client = nat // identity of a client object

  datatype Key = Key(connection: string, endpoint: string)

  // `leases` counts the calls that are using a client, `closing` holds clients
  // that have left the tables and wait for their close, `closes` counts closes.
  datatype Tables = Tables(
    cache: map<Key, Client>,
    active: map<Client, nat>,
    retired: set<Client>,
    secrets: map<Client, string>,
    next: Client,
    closing: set<Client>,
    closes: multiset<Client>)

  const EMPTY := Tables(map[], map[], {}, map[], 0, {}, multiset{})

  // ----- Steps

  function Count(t: Tables, c: Client): nat {
    if c in t.active then t.active[c] else 0
  }

  function Owned(t: Tables, connection: string): set<Client> {
    set k | k in t.cache && k.connection == connection :: t.cache[k]
  }

  function InUse(t: Tables, clients: set<Client>): set<Client> {
    set c | c in clients && c in t.active
  }

  predicate Reusable(t: Tables, key: Key, secret: string) {
    key in t.cache && t.cache[key] in t.secrets && t.secrets[t.cache[key]] == secret
  }

  // A new client replaces every cached client of its connection: the unused
  // ones are closed at once, the used ones are retired.
  function Installed(t: Tables, key: Key, secret: string): Tables {
    var mine := Owned(t, key.connection);
    var used := InUse(t, mine);
    t.(cache := (map k | k in t.cache && k.connection != key.connection :: t.cache[k])[key := t.next],
       secrets := t.secrets[t.next := secret],
       next := t.next + 1,
       retired := t.retired + used,
       closes := t.closes + multiset(mine - used))
  }

  function Leased(t: Tables, c: Client): Tables {
    t.(active := t.active[c := Count(t, c) + 1])
  }

  // Taking a client for one call; `creatable` is whether a new one can be built.
  function Acquired(t: Tables, key: Key, secret: string, creatable: bool): (Tables, Option<Client>) {
    if Reusable(t, key, secret) then (Leased(t, t.cache[key]), Some(t.cache[key]))
    else if !creatable then (t, None)
    else (Leased(Installed(t, key, secret), t.next), Some(t.next))
  }

  // The end of a call: the last one takes a retired client out of the tables.
  function Released(t: Tables, c: Client): Tables {
    if Count(t, c) > 1 then t.(active := t.active[c := Count(t, c) - 1])
    else t.(active := t.active - {c}, retired := t.retired - {c},
            closing := if c in t.retired then t.closing + {c} else t.closing)
  }

  // Retiring the whole cache.
  function Flushed(t: Tables): Tables {
    var used := InUse(t, t.cache.Values);
    t.(cache := map[], retired := t.retired + used, closing := t.closing + (t.cache.Values - used))
  }

  function CloseDone(t: Tables, c: Client): Tables {
    t.(closing := t.closing - {c}, closes := t.closes + multiset{c})
  }

  datatype Event =
    | Acquire(key: Key, secret: string, creatable: bool)
    | Release(client: Client)
    | CloseClients
    | FinishClose(client: Client)

  // A call releases a client only while it holds it, and only a client that
  // waits for its close is closed.
  function Next(t: Tables, event: Event): Tables {
    match event
    case Acquire(key, secret, creatable) => Acquired(t, key, secret, creatable).0
    case Release(c) => if c in t.active then Released(t, c) else t
    case CloseClients => Flushed(t)
    case FinishClose(c) => if c in t.closing then CloseDone(t, c) else t
  }

  function Run(t: Tables, events: seq<Event>): Tables {
    if events == [] then t else Next(Run(t, events[..|events| - 1]), events[|events| - 1])
  }

  // ----- Where a client is

  function Places(t: Tables, c: Client): nat {
    (if c in t.cache.Values then 1 else 0) + (if c in t.retired then 1 else 0)
    + (if c in t.closing then 1 else 0) + t.closes[c]
  }

  // Every client ever created is in exactly one place: cached, retired, waiting
  // for its close, or closed once. A leased client is cached or retired, a
  // retired client is leased, and a connection has at most one cached client.
  ghost predicate Safe(t: Tables) {
    && (forall c: Client :: Places(t, c) == if c < t.next then 1 else 0)
    && (forall c <- t.active :: t.active[c] > 0 && (c in t.cache.Values || c in t.retired))
    && (forall c <- t.retired :: c in t.active)
    && (forall k, l | k in t.cache && l in t.cache ::
          k.connection == l.connection || t.cache[k] == t.cache[l] ==> k == l)
    && (forall c: Client :: c in t.secrets <==> c < t.next)
  }

  lemma InstalledPlaces(t: Tables, key: Key, secret: string, c: Client)
    requires Safe(t)
    ensures Places(Installed(t, key, secret), c) == if c <= t.next then 1 else 0
  {
    var t' := Installed(t, key, secret);
    var mine := Owned(t, key.connection);
    assert Places(t, c) == if c < t.next then 1 else 0;
    assert c in t'.cache.Values <==> c == t.next || (c in t.cache.Values && c !in mine) by {
      if c == t.next {
        assert key in t'.cache && t'.cache[key] == c;
      }
      if c in t.cache.Values && c !in mine {
        var k :| k in t.cache && t.cache[k] == c;
        assert k in t'.cache && t'.cache[k] == c;
      }
      if c in t'.cache.Values && c != t.next {
        var k :| k in t'.cache && t'.cache[k] == c;
        assert k in t.cache && t.cache[k] == c;
      }
    }
    assert mine <= t.cache.Values;
    assert multiset(mine - InUse(t, mine))[c] == if c in mine && c !in t.active then 1 else 0;
  }

  lemma CachedIsCreated(t: Tables, k: Key)
    requires Safe(t) && k in t.cache
    ensures t.cache[k] < t.next
  {
    assert t.cache[k] in t.cache.Values;
    assert Places(t, t.cache[k]) >= 1;
  }

  lemma InstalledKeys(t: Tables, key: Key, secret: string, k: Key, l: Key)
    requires Safe(t)
    requires var cache := Installed(t, key, secret).cache;
             k in cache && l in cache && (k.connection == l.connection || cache[k] == cache[l])
    ensures k == l
  {
    if k != key {
      CachedIsCreated(t, k);
    }
    if l != key {
      CachedIsCreated(t, l);
    }
  }

  lemma InstalledLeases(t: Tables, key: Key, secret: string, c: Client)
    requires Safe(t) && c in t.active
    ensures var t' := Installed(t, key, secret); c in t'.cache.Values || c in t'.retired
  {
    var t' := Installed(t, key, secret);
    if c !in t.retired && c !in Owned(t, key.connection) {
      var k :| k in t.cache && t.cache[k] == c;
      assert k in t'.cache && t'.cache[k] == c;
    }
  }

  lemma InstalledCache(t: Tables, key: Key, secret: string)
    requires Safe(t)
    ensures var cache := Installed(t, key, secret).cache;
            forall k, l | k in cache && l in cache ::
              k.connection == l.connection || cache[k] == cache[l] ==> k == l
  {
    var cache := Installed(t, key, secret).cache;
    forall k, l | k in cache && l in cache && (k.connection == l.connection || cache[k] == cache[l])
      ensures k == l
    {
      InstalledKeys(t, key, secret, k, l);
    }
  }

  lemma InstalledSafe(t: Tables, key: Key, secret: string)
    requires Safe(t)
    ensures Safe(Installed(t, key, secret))
  {
    var t' := Installed(t, key, secret);
    forall c: Client ensures Places(t', c) == if c < t'.next then 1 else 0 {
      InstalledPlaces(t, key, secret, c);
    }
    forall c <- t'.active ensures t'.active[c] > 0 && (c in t'.cache.Values || c in t'.retired) {
      InstalledLeases(t, key, secret, c);
    }
    InstalledCache(t, key, secret);
  }

  lemma LeasedSafe(t: Tables, c: Client)
    requires Safe(t) && c in t.cache.Values
    ensures Safe(Leased(t, c))
  {
    forall x: Client ensures Places(Leased(t, c), x) == if x < t.next then 1 else 0 {
      assert Places(t, x) == if x < t.next then 1 else 0;
    }
  }

  lemma ReleasedSafe(t: Tables, c: Client)
    requires Safe(t) && c in t.active
    ensures Safe(Released(t, c))
  {
    forall x: Client ensures Places(Released(t, c), x) == if x < t.next then 1 else 0 {
      assert Places(t, x) == if x < t.next then 1 else 0;
    }
  }

  lemma FlushedSafe(t: Tables)
    requires Safe(t)
    ensures Safe(Flushed(t))
  {
    forall x: Client ensures Places(Flushed(t), x) == if x < t.next then 1 else 0 {
      assert Places(t, x) == if x < t.next then 1 else 0;
    }
  }

  lemma CloseDoneSafe(t: Tables, c: Client)
    requires Safe(t) && c in t.closing
    ensures Safe(CloseDone(t, c))
  {
    forall x: Client ensures Places(CloseDone(t, c), x) == if x < t.next then 1 else 0 {
      assert Places(t, x) == if x < t.next then 1 else 0;
    }
  }

  lemma NextSafe(t: Tables, event: Event)
    requires Safe(t)
    ensures Safe(Next(t, event))
  {
    match event
    case Acquire(key, secret, creatable) =>
      if Reusable(t, key, secret) {
        LeasedSafe(t, t.cache[key]);
      } else if creatable {
        InstalledSafe(t, key, secret);
        assert Installed(t, key, secret).cache[key] == t.next;
        LeasedSafe(Installed(t, key, secret), t.next);
      }
    case Release(c) =>
      if c in t.active {
        ReleasedSafe(t, c);
      }
    case CloseClients => FlushedSafe(t);
    case FinishClose(c) =>
      if c in t.closing {
        CloseDoneSafe(t, c);
      }
  }

  // A call gets the cached client of its connection and endpoint, with its own
  // credential, leased once more and not closed.
  lemma AcquiredServesRequest(t: Tables, key: Key, secret: string, creatable: bool)
    requires Safe(t) && Acquired(t, key, secret, creatable).1.Some?
    ensures var (t', client) := Acquired(t, key, secret, creatable);
            var c := client.value;
            && key in t'.cache && t'.cache[key] == c && c in t'.secrets && t'.secrets[c] == secret
            && Count(t', c) == Count(t, c) + 1 && t'.closes[c] == 0
  {
    var t', c := Acquired(t, key, secret, creatable).0, Acquired(t, key, secret, creatable).1.value;
    NextSafe(t, Acquire(key, secret, creatable));
    assert c in t'.cache.Values && Places(t', c) <= 1;
  }

  ghost predicate Serves(t: Tables, key: Key, secret: string, c: Client) {
    key in t.cache && t.cache[key] == c && c in t.secrets && t.secrets[c] == secret
  }

  // Nothing that replaces or retires the client of this key and credential.
  predicate LeavesAlone(event: Event, key: Key, secret: string) {
    && !event.CloseClients?
    && (event.Acquire? && event.key.connection == key.connection ==> event.key == key && event.secret == secret)
  }

  // A cached client of equal credential is taken as it is, also when no new one
  // could be built, and only without such a client is a new one built.
  lemma EqualCredentialReuses(t: Tables, key: Key, secret: string, creatable: bool)
    requires Safe(t)
    ensures var (t', client) := Acquired(t, key, secret, creatable);
            && (forall c: Client :: Serves(t, key, secret, c) ==>
                  client == Some(c) && t' == t.(active := t.active[c := Count(t, c) + 1]))
            && (client.Some? && !Serves(t, key, secret, client.value) ==> creatable && client.value == t.next)
            && (client.None? ==> t' == t && !creatable)
  {
  }

  lemma {:induction false} ServesAlong(t: Tables, key: Key, secret: string, c: Client, events: seq<Event>)
    requires Safe(t) && Serves(t, key, secret, c)
    requires forall event <- events :: LeavesAlone(event, key, secret)
    ensures Safe(Run(t, events)) && Serves(Run(t, events), key, secret, c)
  {
    if events != [] {
      var (init, last) := (events[..|events| - 1], events[|events| - 1]);
      ServesAlong(t, key, secret, c, init);
      NextSafe(Run(t, init), last);
      assert LeavesAlone(last, key, secret);
    }
  }

  // Two calls of one key and credential share a client, whatever calls of other
  // connections, releases and closes come between them.
  lemma ClientIsShared(t: Tables, key: Key, secret: string, events: seq<Event>, first: bool, second: bool)
    requires Safe(t) && Acquired(t, key, secret, first).1.Some?
    requires forall event <- events :: LeavesAlone(event, key, secret)
    ensures var (t', client) := Acquired(t, key, secret, first);
            Acquired(Run(t', events), key, secret, second).1 == client
  {
    var t', c := Acquired(t, key, secret, first).0, Acquired(t, key, secret, first).1.value;
    NextSafe(t, Acquire(key, secret, first));
    AcquiredServesRequest(t, key, secret, first);
    ServesAlong(t', key, secret, c, events);
    EqualCredentialReuses(Run(t', events), key, secret, second);
  }

  // In every interleaving a client is closed at most once and never while it is leased.
  lemma {:induction false} RunIsSafe(events: seq<Event>)
    ensures var t := Run(EMPTY, events);
            && Safe(t)
            && forall c: Client :: t.closes[c] <= 1 && (c in t.active ==> t.closes[c] == 0 && c !in t.closing)
  {
    if events != [] {
      RunIsSafe(events[..|events| - 1]);
      NextSafe(Run(EMPTY, events[..|events| - 1]), events[|events| - 1]);
    }
    var t := Run(EMPTY, events);
    forall c: Client ensures t.closes[c] <= 1 && (c in t.active ==> t.closes[c] == 0 && c !in t.closing) {
      assert Places(t, c) <= 1;
    }
  }

  // ----- The tables of the module, updated in place

  // The values of some keys of the cache.
  ghost function At(cache: map<Key, Client>, keys: set<Key>): set<Client> {
    set k | k in keys && k in cache :: cache[k]
  }

  // The tables after the keys in `gone` have been taken out of the cache, with
  // `used` their used clients and `idle` the others.
  ghost predicate Split(t: Tables, gone: set<Key>, cache: map<Key, Client>, used: set<Client>, idle: set<Client>) {
    && gone <= t.cache.Keys && cache == t.cache - gone
    && used == InUse(t, At(t.cache, gone)) && idle == At(t.cache, gone) - used
  }

  lemma SplitNext(t: Tables, gone: set<Key>, cache: map<Key, Client>, used: set<Client>, idle: set<Client>, k: Key)
    requires Safe(t) && Split(t, gone, cache, used, idle) && k in cache
    ensures var c := cache[k];
            && c !in used && c !in idle && c !in t.retired
            && Split(t, gone + {k}, cache - {k}, if c in t.active then used + {c} else used,
                     if c in t.active then idle else idle + {c})
  {
    var c := cache[k];
    assert c in t.cache.Values && Places(t, c) <= 1;
    assert At(t.cache, gone + {k}) == At(t.cache, gone) + {c};
  }

  lemma SplitStart(t: Tables)
    ensures Split(t, {}, t.cache, {}, {})
  {
    assert At(t.cache, {}) == {};
    assert t.cache - {} == t.cache;
  }

  ghost function KeysOf(t: Tables, connection: string): set<Key> {
    set k | k in t.cache && k.connection == connection
  }

  // The tables without the clients of some keys: the used ones are retired and
  // the others closed.
  ghost function Without(t: Tables, gone: set<Key>): Tables {
    var clients := At(t.cache, gone);
    t.(cache := t.cache - gone,
       retired := t.retired + InUse(t, clients),
       closes := t.closes + multiset(clients - InUse(t, clients)))
  }

  // Of the keys to take out of t, those in `keys` are still to go.
  ghost predicate Evicting(t: Tables, all: set<Key>, now: Tables, keys: set<Key>) {
    CacheInjective(t) && keys <= all <= t.cache.Keys && now == Without(t, all - keys)
  }

  lemma EvictNext(t: Tables, all: set<Key>, now: Tables, keys: set<Key>, k: Key)
    requires Evicting(t, all, now, keys) && k in keys
    ensures k in now.cache && now.cache[k] == t.cache[k]
    ensures Evicting(t, all, DropOne(now, k, now.cache[k]), keys - {k})
  {
    WithoutNext(t, all - keys, k);
    assert all - (keys - {k}) == (all - keys) + {k};
  }

  lemma EvictEnd(t: Tables, all: set<Key>, now: Tables)
    requires Evicting(t, all, now, {})
    ensures now == Without(t, all)
  {
    assert all - {} == all;
  }

  // The clients of one key more; no other key of a safe cache has the same client.
  lemma AtNext(t: Tables, gone: set<Key>, k: Key)
    requires CacheInjective(t) && k in t.cache && k !in gone
    ensures At(t.cache, gone + {k}) == At(t.cache, gone) + {t.cache[k]} && t.cache[k] !in At(t.cache, gone)
    ensures t.cache - (gone + {k}) == (t.cache - gone) - {k}
  {
  }

  ghost predicate CacheInjective(t: Tables) {
    forall k, l | k in t.cache && l in t.cache && t.cache[k] == t.cache[l] :: k == l
  }

  lemma UseNext(t: Tables, clients: set<Client>, c: Client)
    requires c !in clients
    ensures var (used, used') := (InUse(t, clients), InUse(t, clients + {c}));
            && used' == (if c in t.active then used + {c} else used)
            && (clients + {c}) - used' == (if c in t.active then clients - used else (clients - used) + {c})
  {
  }

  lemma MultisetNext(base: multiset<Client>, idle: set<Client>, c: Client)
    requires c !in idle
    ensures base + multiset(idle + {c}) == base + multiset(idle) + multiset{c}
  {
    assert multiset(idle + {c}) == multiset(idle) + multiset{c};
  }

  lemma WithoutNext(t: Tables, gone: set<Key>, k: Key)
    requires CacheInjective(t) && k in t.cache && k !in gone
    ensures Without(t, gone + {k}) == DropOne(Without(t, gone), k, t.cache[k])
  {
    var c, clients := t.cache[k], At(t.cache, gone);
    AtNext(t, gone, k);
    UseNext(t, clients, c);
    MultisetNext(t.closes, clients - InUse(t, clients), c);
    assert t.retired + (InUse(t, clients) + {c}) == (t.retired + InUse(t, clients)) + {c};
  }

  // The tables after the client c of one key has left the cache.
  ghost function DropOne(w: Tables, k: Key, c: Client): Tables {
    if c in w.active then w.(cache := w.cache - {k}, retired := w.retired + {c})
    else w.(cache := w.cache - {k}, closes := w.closes + multiset{c})
  }

  ghost function Caching(w: Tables, key: Key, secret: string): Tables {
    w.(cache := w.cache[key := w.next], secrets := w.secrets[w.next := secret], next := w.next + 1)
  }

  // Installing a client is taking out its connection's and caching the new one.
  lemma InstalledByEviction(t: Tables, key: Key, secret: string)
    ensures Installed(t, key, secret) == Caching(Without(t, KeysOf(t, key.connection)), key, secret)
  {
    assert At(t.cache, KeysOf(t, key.connection)) == Owned(t, key.connection);
    assert t.cache - KeysOf(t, key.connection) == map k | k in t.cache && k.connection != key.connection :: t.cache[k];
  }

  lemma FlushEnd(t: Tables, gone: set<Key>, rest: map<Key, Client>, used: set<Client>, idle: set<Client>)
    requires Split(t, gone, rest, used, idle) && rest.Keys == {}
    ensures used == InUse(t, t.cache.Values) && idle == t.cache.Values - used
  {
    forall c <- t.cache.Values ensures c in At(t.cache, gone) {
      var k :| k in t.cache && t.cache[k] == c;
      assert k !in rest;
    }
    assert At(t.cache, gone) == t.cache.Values;
  }

  class Clients {
    var cache: map<Key, Client>
    var active: map<Client, nat>
    var retired: set<Client>
    var secrets: map<Client, string>
    var next: Client
    ghost var closing: set<Client>
    ghost var closes: multiset<Client>

    ghost function View(): Tables
      reads this
    {
      Tables(cache, active, retired, secrets, next, closing, closes)
    }

    constructor ()
      ensures View() == EMPTY
    {
      cache, active, retired, secrets, next := map[], map[], {}, map[], 0;
      closing, closes := {}, multiset{};
    }

    method Acquire(key: Key, secret: string, creatable: bool) returns (client: Option<Client>)
      requires CacheInjective(View())
      modifies this
      ensures (View(), client) == Acquired(old(View()), key, secret, creatable)
    {
      if !(key in cache && cache[key] in secrets && secrets[cache[key]] == secret) {
        if !creatable {
          return None;
        }
        Install(key, secret);
      }
      client := Some(cache[key]);
      Lease(cache[key]);
    }

    method Lease(c: Client)
      modifies this`active
      ensures View() == Leased(old(View()), c)
    {
      active := active[c := (if c in active then active[c] else 0) + 1];
    }

    method Install(key: Key, secret: string)
      requires CacheInjective(View())
      modifies this
      ensures View() == Installed(old(View()), key, secret)
      ensures key in cache && cache[key] == old(next)
    {
      InstalledByEviction(View(), key, secret);
      var c := next;
      Evict(key.connection);
      cache := cache[key := c];
      secrets, next := secrets[c := secret], next + 1;
    }

    // Takes every client of a connection out of the cache.
    method Evict(connection: string)
      requires CacheInjective(View())
      modifies this`cache, this`retired, this`closes
      ensures View() == Without(old(View()), KeysOf(old(View()), connection))
    {
      ghost var t, all := View(), KeysOf(View(), connection);
      var keys := set k | k in cache && k.connection == connection;
      while keys != {}
        invariant Evicting(t, all, View(), keys)
        decreases keys
      {
        var k :| k in keys;
        EvictNext(t, all, View(), keys, k);
        Drop(k);
        keys := keys - {k};
      }
      EvictEnd(t, all, View());
    }

    // One client leaves the cache: retired while it is used, closed otherwise.
    method Drop(k: Key)
      requires k in cache
      modifies this`cache, this`retired, this`closes
      ensures View() == DropOne(old(View()), k, old(cache)[k])
    {
      var former := cache[k];
      cache := cache - {k};
      if former in active {
        retired := retired + {former};
      } else {
        closes := closes + multiset{former};
      }
    }

    method Release(client: Client)
      requires client in active
      modifies this
      ensures View() == Released(old(View()), client)
    {
      var count := active[client];
      if count > 1 {
        active := active[client := count - 1];
      } else {
        active := active - {client};
        if client in retired {
          retired := retired - {client};
          closing := closing + {client};
        }
      }
    }

    // Every cached client is retired or handed to the caller to be closed.
    method CloseClients() returns (idle: set<Client>)
      requires Safe(View())
      modifies this`cache, this`retired, this`closing
      ensures View() == Flushed(old(View()))
      ensures idle == old(cache.Values) - old(active.Keys)
    {
      ghost var t := View();
      ghost var used, gone: set<Key> := {}, {};
      idle := {};
      var rest := cache;
      SplitStart(t);
      while rest.Keys != {}
        invariant Split(t, gone, rest, used, idle)
        invariant retired == t.retired + used && cache == t.cache && closing == t.closing
        decreases rest.Keys
      {
        var k :| k in rest.Keys;
        SplitNext(t, gone, rest, used, idle, k);
        var client := rest[k];
        rest := rest - {k};
        gone := gone + {k};
        if client in active {
          retired := retired + {client};
          used := used + {client};
        } else {
          idle := idle + {client};
        }
      }
      FlushEnd(t, gone, rest, used, idle);
      cache := map[];
      closing := closing + idle;
    }

    ghost method FinishClose(client: Client)
      requires client in closing
      modifies this`closing, this`closes
      ensures View() == CloseDone(old(View()), client)
    {
      closing, closes := closing - {client}, closes + multiset{client};
    }
  }
}
