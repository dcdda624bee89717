// Hotspot rows and the forest of merged aliases they form
// (app/analysis/hotspot_lifecycle.py, app/db/hotspot_store.py).

module HotspotForest {
  import opened Wrappers

  datatype Status = Provisional | Enriching | Confirmed | Merged | Dismissed

  // The event-level clip metadata kept in the features of a row.
  datatype ClipMeta = NoMeta | Unvalued | Detector(value: real)

  datatype Event = Event(
    key: string,
    session: nat,
    start: real,
    peak: real,
    end: real,
    status: Status,
    heat: real,
    clip: real,
    semantic: real,
    coverage: real,
    meta: ClipMeta,
    candidate: Option<nat>,
    mergedInto: Option<nat>)
  {
    predicate IsAlias() {
      status.Merged? && mergedInto.Some?
    }

    predicate IsActive() {
      status.Provisional? || status.Enriching? || status.Confirmed?
    }
  }

  type Rows = map<nat, Event>

  // ----- Following aliases

  // n links lead from id to the root r, inside one session.
  ghost predicate Chain(rows: Rows, id: nat, r: nat, n: nat)
    decreases n
  {
    && id in rows
    && if rows[id].IsAlias() then
         var t := rows[id].mergedInto.value;
         n > 0 && t in rows && rows[t].session == rows[id].session && Chain(rows, t, r, n - 1)
       else n == 0 && r == id
  }

  ghost predicate ResolvesTo(rows: Rows, id: nat, r: nat) {
    exists n: nat :: Chain(rows, id, r, n)
  }

  ghost predicate Resolves(rows: Rows, id: nat) {
    exists r: nat :: ResolvesTo(rows, id, r)
  }

  // Every row leads to a root, so the aliases are acyclic and stay in their
  // session, and a merged row always names its target.
  ghost predicate Forest(rows: Rows) {
    && (forall id {:trigger Resolves(rows, id)} | id in rows :: Resolves(rows, id))
    && (forall id <- rows | rows[id].status.Merged? :: rows[id].mergedInto.Some?)
  }

  lemma {:induction false} ChainEnd(rows: Rows, id: nat, r: nat, n: nat)
    requires Chain(rows, id, r, n)
    ensures id in rows && r in rows && !rows[r].IsAlias() && rows[r].session == rows[id].session
    decreases n
  {
    if rows[id].IsAlias() {
      ChainEnd(rows, rows[id].mergedInto.value, r, n - 1);
    }
  }

  lemma {:induction false} ChainUnique(rows: Rows, id: nat, r: nat, n: nat, r': nat, n': nat)
    requires Chain(rows, id, r, n) && Chain(rows, id, r', n')
    ensures r == r' && n == n'
    decreases n
  {
    if rows[id].IsAlias() {
      ChainUnique(rows, rows[id].mergedInto.value, r, n - 1, r', n' - 1);
    }
  }

  lemma RootUnique(rows: Rows, id: nat, r: nat, r': nat)
    requires ResolvesTo(rows, id, r) && ResolvesTo(rows, id, r')
    ensures r == r'
  {
    var n: nat :| Chain(rows, id, r, n);
    var n': nat :| Chain(rows, id, r', n');
    ChainUnique(rows, id, r, n, r', n');
  }

  lemma RootEnd(rows: Rows, id: nat, r: nat)
    requires ResolvesTo(rows, id, r)
    ensures id in rows && r in rows && !rows[r].IsAlias() && rows[r].session == rows[id].session
    ensures ResolvesTo(rows, r, r)
  {
    var n: nat :| Chain(rows, id, r, n);
    ChainEnd(rows, id, r, n);
    assert Chain(rows, r, r, 0);
  }

  lemma StepRoot(rows: Rows, id: nat, r: nat)
    requires id in rows && rows[id].IsAlias() && rows[id].mergedInto.value in rows
    requires rows[rows[id].mergedInto.value].session == rows[id].session
    requires ResolvesTo(rows, rows[id].mergedInto.value, r)
    ensures ResolvesTo(rows, id, r)
  {
    var n: nat :| Chain(rows, rows[id].mergedInto.value, r, n);
    assert Chain(rows, id, r, n + 1);
  }

  // ----- Changes that keep the forest

  ghost predicate SameSessions(rows: Rows, rows': Rows) {
    forall x <- rows :: x in rows' && rows'[x].session == rows[x].session
  }

  // Roots may change in any other respect and new rows may appear.
  ghost predicate LinksKept(rows: Rows, rows': Rows) {
    && SameSessions(rows, rows')
    && forall x <- rows :: rows'[x].IsAlias() == rows[x].IsAlias()
                           && (rows[x].IsAlias() ==> rows'[x].mergedInto == rows[x].mergedInto)
  }

  lemma {:induction false} LinksKeptChain(rows: Rows, rows': Rows, id: nat, r: nat, n: nat)
    requires LinksKept(rows, rows') && Chain(rows, id, r, n)
    ensures Chain(rows', id, r, n)
    decreases n
  {
    if rows[id].IsAlias() {
      LinksKeptChain(rows, rows', rows[id].mergedInto.value, r, n - 1);
    }
  }

  // Some aliases of root now point at it directly.
  ghost predicate Compressed(rows: Rows, rows': Rows, root: nat) {
    && rows'.Keys == rows.Keys
    && forall x <- rows ::
         rows'[x] == rows[x]
         || (rows[x].IsAlias() && ResolvesTo(rows, x, root) && rows'[x] == rows[x].(mergedInto := Some(root)))
  }

  lemma CompressedRoot(rows: Rows, rows': Rows, root: nat, x: nat)
    requires Compressed(rows, rows', root) && x in rows && rows'[x] != rows[x]
    ensures ResolvesTo(rows', x, root)
  {
    RootEnd(rows, x, root);
    assert Chain(rows', root, root, 0);
    assert Chain(rows', x, root, 1);
  }

  lemma {:induction false} CompressedChain(rows: Rows, rows': Rows, root: nat, id: nat, r: nat, n: nat)
    requires Compressed(rows, rows', root) && Chain(rows, id, r, n)
    ensures ResolvesTo(rows', id, r)
    decreases n
  {
    if rows'[id] != rows[id] {
      CompressedRoot(rows, rows', root, id);
      assert ResolvesTo(rows, id, r);
      RootUnique(rows, id, r, root);
    } else if rows[id].IsAlias() {
      CompressedChain(rows, rows', root, rows[id].mergedInto.value, r, n - 1);
      StepRoot(rows', id, r);
    } else {
      assert Chain(rows', id, id, 0);
    }
  }

  // The root s has become an alias of the root c.
  ghost predicate Joined(rows: Rows, rows': Rows, c: nat, s: nat) {
    && c != s && c in rows && s in rows && rows[c].session == rows[s].session
    && !rows[c].IsAlias() && !rows[s].IsAlias()
    && SameSessions(rows, rows')
    && rows'[s].IsAlias() && rows'[s].mergedInto == Some(c)
    && !rows'[c].IsAlias()
    && forall x <- rows | x != c && x != s :: rows'[x] == rows[x]
  }

  lemma {:induction false} JoinedChain(rows: Rows, rows': Rows, c: nat, s: nat, id: nat, r: nat, n: nat)
    requires Joined(rows, rows', c, s) && Chain(rows, id, r, n)
    ensures ResolvesTo(rows', id, if r == s then c else r)
    decreases n
  {
    if rows[id].IsAlias() {
      JoinedChain(rows, rows', c, s, rows[id].mergedInto.value, r, n - 1);
      StepRoot(rows', id, if r == s then c else r);
    } else {
      assert Chain(rows', c, c, 0);
      assert Chain(rows', s, c, 1);
      if id != c && id != s {
        assert Chain(rows', id, id, 0);
      }
    }
  }

  // ----- How rows evolve

  function Clamp(x: real): real {
    if x < 0.0 then 0.0 else if x > 1.0 then 1.0 else x
  }

  // The detector's own clip score, which the event-level score may have replaced.
  function DetectorClip(e: Event): real {
    if e.meta.Detector? then Clamp(e.meta.value) else e.clip
  }

  function Strength(e: Event): real {
    if e.heat >= DetectorClip(e) then e.heat else DetectorClip(e)
  }

  // A peak together with the strength of the observation it comes from.
  type Sight = (real, real)

  function SightOf(e: Event): Sight {
    (e.peak, Strength(e))
  }

  // inner's bounds and detector scores are those of outer or weaker. The semantic
  // confidence is not among them: a stored explanation may lower it.
  ghost predicate Within(inner: Event, outer: Event) {
    && outer.start <= inner.start && inner.end <= outer.end
    && inner.heat <= outer.heat && DetectorClip(inner) <= DetectorClip(outer)
    && inner.coverage <= outer.coverage
  }

  predicate Frozen(e: Event) {
    e.status.Dismissed? || e.candidate.Some?
  }

  predicate Score(x: real) {
    0.0 <= x <= 1.0
  }

  ghost predicate WellFormed(e: Event) {
    && e.start <= e.peak <= e.end
    && Score(e.heat) && Score(e.clip) && Score(e.semantic) && Score(e.coverage)
  }

  ghost predicate DistinctKeys(rows: Rows) {
    forall x, y | x in rows && y in rows && rows[x].key == rows[y].key :: x == y
  }

  ghost predicate AllWellFormed(rows: Rows) {
    forall x <- rows :: WellFormed(rows[x])
  }

  // Every root contains whatever was merged into it.
  ghost predicate Contained(rows: Rows) {
    forall x: nat, r: nat | ResolvesTo(rows, x, r) :: x in rows && r in rows && Within(rows[x], rows[r])
  }

  ghost predicate Inv(rows: Rows) {
    Forest(rows) && DistinctKeys(rows) && AllWellFormed(rows) && Contained(rows)
  }

  // One row over time: identity kept, merged for good, and only widened.
  ghost predicate Grown(e: Event, e': Event) {
    && e'.key == e.key && e'.session == e.session
    && (e.status.Merged? ==> e'.status.Merged?)
    && Within(e, e')
  }

  // Under reconciliation a row also keeps its candidate and never loses semantic
  // confidence, and a frozen row changes in nothing but the target of an alias.
  ghost predicate Later(e: Event, e': Event) {
    && Grown(e, e') && e'.candidate == e.candidate && e.semantic <= e'.semantic
    && (Frozen(e) ==> SameRow(e, e'))
  }

  ghost predicate SameRow(e: Event, e': Event) {
    e'.(mergedInto := e.mergedInto) == e
  }

  ghost predicate ShareRoot(rows: Rows, x: nat, y: nat) {
    exists r: nat :: ResolvesTo(rows, x, r) && ResolvesTo(rows, y, r)
  }

  // The whole table under reconciliation: no row is lost, a row keeps sharing a
  // root with the root it had, and its root never loses semantic confidence.
  ghost predicate Evolves(rows: Rows, rows': Rows) {
    && (forall x <- rows :: x in rows' && Later(rows[x], rows'[x]))
    && KeepsShared(rows, rows') && Lifts(rows, rows')
  }

  ghost predicate Lifted(rows: Rows, rows': Rows, x: nat, r: nat, r': nat) {
    ResolvesTo(rows, x, r) && ResolvesTo(rows', x, r') ==>
      r in rows && r' in rows' && rows[r].semantic <= rows'[r'].semantic
  }

  ghost predicate Lifts(rows: Rows, rows': Rows) {
    forall x: nat, r: nat, r': nat {:trigger Lifted(rows, rows', x, r, r')} :: Lifted(rows, rows', x, r, r')
  }

  ghost predicate KeepsShared(rows: Rows, rows': Rows) {
    forall x: nat, r: nat {:trigger ShareRoot(rows', x, r)} | ResolvesTo(rows, x, r) :: ShareRoot(rows', x, r)
  }

  // What every step over the table keeps, assessments and detachments included.
  ghost predicate Outgrows(rows: Rows, rows': Rows) {
    && (forall x <- rows :: x in rows' && Grown(rows[x], rows'[x]))
    && KeepsShared(rows, rows')
  }

  lemma EvolvesOutgrows(rows: Rows, rows': Rows)
    requires Evolves(rows, rows')
    ensures Outgrows(rows, rows')
  {
    forall x <- rows ensures x in rows' && Grown(rows[x], rows'[x]) {
      assert Later(rows[x], rows'[x]);
    }
  }

  lemma EvolvesReflexive(rows: Rows)
    ensures Evolves(rows, rows)
  {
    forall x: nat, r: nat | ResolvesTo(rows, x, r) ensures ShareRoot(rows, x, r) {
      RootEnd(rows, x, r);
    }
    forall x: nat, r: nat, r': nat ensures Lifted(rows, rows, x, r, r') {
      if ResolvesTo(rows, x, r) && ResolvesTo(rows, x, r') {
        RootEnd(rows, x, r);
        RootUnique(rows, x, r, r');
      }
    }
  }

  lemma LiftsTransitive(a: Rows, b: Rows, c: Rows)
    requires KeepsShared(a, b) && Lifts(a, b) && Lifts(b, c)
    ensures Lifts(a, c)
  {
    forall x: nat, r: nat, r': nat ensures Lifted(a, c, x, r, r') {
      if ResolvesTo(a, x, r) && ResolvesTo(c, x, r') {
        assert ShareRoot(b, x, r);
        var m: nat :| ResolvesTo(b, x, m) && ResolvesTo(b, r, m);
        assert Lifted(a, b, x, r, m) && Lifted(b, c, x, m, r');
      }
    }
  }

  lemma SharedTransitive(a: Rows, b: Rows, c: Rows)
    requires KeepsShared(a, b) && KeepsShared(b, c)
    ensures KeepsShared(a, c)
  {
    forall x: nat, r: nat | ResolvesTo(a, x, r) ensures ShareRoot(c, x, r) {
      assert ShareRoot(b, x, r);
      var m: nat :| ResolvesTo(b, x, m) && ResolvesTo(b, r, m);
      assert ShareRoot(c, x, m) && ShareRoot(c, r, m);
      var q: nat :| ResolvesTo(c, x, q) && ResolvesTo(c, m, q);
      var q': nat :| ResolvesTo(c, r, q') && ResolvesTo(c, m, q');
      RootUnique(c, m, q, q');
    }
  }

  lemma EvolvesTransitive(a: Rows, b: Rows, c: Rows)
    requires Evolves(a, b) && Evolves(b, c)
    ensures Evolves(a, c)
  {
    SharedTransitive(a, b, c);
    LiftsTransitive(a, b, c);
    forall x <- a ensures x in c && Later(a[x], c[x]) {
      assert Later(a[x], b[x]) && Later(b[x], c[x]);
    }
  }

  lemma OutgrowsTransitive(a: Rows, b: Rows, c: Rows)
    requires Outgrows(a, b) && Outgrows(b, c)
    ensures Outgrows(a, c)
  {
    SharedTransitive(a, b, c);
    forall x <- a ensures x in c && Grown(a[x], c[x]) {
      assert Grown(a[x], b[x]) && Grown(b[x], c[x]);
    }
  }

  // ----- The changes of a reconciliation keep the invariant and only evolve the table

  ghost predicate SameRoots(rows: Rows, rows': Rows) {
    forall x: nat, r: nat :: ResolvesTo(rows, x, r) <==> ResolvesTo(rows', x, r)
  }

  lemma LinksKeptSameRoots(rows: Rows, rows': Rows)
    requires LinksKept(rows, rows') && LinksKept(rows', rows)
    ensures SameRoots(rows, rows')
  {
    forall x: nat, r: nat | ResolvesTo(rows, x, r) ensures ResolvesTo(rows', x, r) {
      var n: nat :| Chain(rows, x, r, n);
      LinksKeptChain(rows, rows', x, r, n);
    }
    forall x: nat, r: nat | ResolvesTo(rows', x, r) ensures ResolvesTo(rows, x, r) {
      var n: nat :| Chain(rows', x, r, n);
      LinksKeptChain(rows', rows, x, r, n);
    }
  }

  lemma CompressedSameRoots(rows: Rows, rows': Rows, root: nat)
    requires Forest(rows) && Compressed(rows, rows', root)
    ensures SameRoots(rows, rows')
  {
    forall x: nat, r: nat | ResolvesTo(rows, x, r) ensures ResolvesTo(rows', x, r) {
      var n: nat :| Chain(rows, x, r, n);
      CompressedChain(rows, rows', root, x, r, n);
    }
    forall x: nat, r: nat | ResolvesTo(rows', x, r) ensures ResolvesTo(rows, x, r) {
      RootEnd(rows', x, r);
      assert Resolves(rows, x);
      var r': nat :| ResolvesTo(rows, x, r');
      RootUnique(rows', x, r, r');
    }
  }

  lemma SameRootsShare(rows: Rows, rows': Rows)
    requires SameRoots(rows, rows')
    ensures forall x: nat, r: nat | ResolvesTo(rows, x, r) :: ShareRoot(rows', x, r)
  {
    forall x: nat, r: nat | ResolvesTo(rows, x, r) ensures ShareRoot(rows', x, r) {
      RootEnd(rows, x, r);
    }
  }

  lemma SameRootsLift(rows: Rows, rows': Rows)
    requires SameRoots(rows, rows') && forall x <- rows :: x in rows' && rows[x].semantic <= rows'[x].semantic
    ensures Lifts(rows, rows')
  {
    forall x: nat, r: nat, r': nat ensures Lifted(rows, rows', x, r, r') {
      if ResolvesTo(rows, x, r) && ResolvesTo(rows', x, r') {
        RootEnd(rows, x, r);
        RootUnique(rows, x, r, r');
      }
    }
  }

  lemma SameRootsForest(rows: Rows, rows': Rows)
    requires Forest(rows) && SameRoots(rows, rows') && rows'.Keys == rows.Keys
    requires forall x <- rows' | rows'[x].status.Merged? :: rows'[x].mergedInto.Some?
    ensures Forest(rows')
  {
    forall x <- rows' ensures Resolves(rows', x) {
      assert Resolves(rows, x);
    }
  }

  // Nothing but targets of aliases differs.
  ghost predicate SameFacts(rows: Rows, rows': Rows) {
    && rows'.Keys == rows.Keys
    && forall x <- rows :: rows'[x] == rows[x].(mergedInto := rows'[x].mergedInto)
  }

  lemma KeptKeys(rows: Rows, rows': Rows)
    requires DistinctKeys(rows) && rows'.Keys == rows.Keys
    requires forall x <- rows :: rows'[x].key == rows[x].key
    ensures DistinctKeys(rows')
  {
    forall x, y | x in rows' && y in rows' && rows'[x].key == rows'[y].key ensures x == y {
      assert rows[x].key == rows'[x].key && rows[y].key == rows'[y].key;
    }
  }

  lemma SameFactsContained(rows: Rows, rows': Rows)
    requires AllWellFormed(rows) && Contained(rows) && SameFacts(rows, rows') && SameRoots(rows, rows')
    ensures AllWellFormed(rows') && Contained(rows')
  {
    forall x <- rows' ensures WellFormed(rows'[x]) {
      assert WellFormed(rows[x]);
    }
    forall x: nat, r: nat | ResolvesTo(rows', x, r) ensures x in rows' && r in rows' && Within(rows'[x], rows'[r]) {
      assert ResolvesTo(rows, x, r);
      assert Within(rows[x], rows[r]);
    }
  }

  lemma SameFactsLater(rows: Rows, rows': Rows)
    requires SameFacts(rows, rows')
    ensures forall x <- rows :: x in rows' && Later(rows[x], rows'[x])
  {
    forall x <- rows ensures x in rows' && Later(rows[x], rows'[x]) {
    }
  }

  lemma CompressedFacts(rows: Rows, rows': Rows, root: nat)
    requires Compressed(rows, rows', root)
    ensures SameFacts(rows, rows')
    ensures (forall x <- rows | rows[x].status.Merged? :: rows[x].mergedInto.Some?) ==>
              forall x <- rows' | rows'[x].status.Merged? :: rows'[x].mergedInto.Some?
  {
    forall x <- rows ensures rows'[x] == rows[x].(mergedInto := rows'[x].mergedInto) {
    }
  }

  lemma CompressedKeeps(rows: Rows, rows': Rows, root: nat)
    requires Inv(rows) && Compressed(rows, rows', root)
    ensures Inv(rows') && Evolves(rows, rows') && SameRoots(rows, rows')
  {
    CompressedFacts(rows, rows', root);
    CompressedSameRoots(rows, rows', root);
    SameRootsForest(rows, rows');
    KeptKeys(rows, rows');
    SameFactsContained(rows, rows');
    SameFactsLater(rows, rows');
    SameRootsShare(rows, rows');
    SameRootsLift(rows, rows');
  }

  // ----- A root changes in place

  ghost predicate RootUpdated(rows: Rows, rows': Rows, root: nat) {
    && root in rows && rows'.Keys == rows.Keys
    && !rows[root].IsAlias() && !rows'[root].status.Merged?
    && Later(rows[root], rows'[root]) && WellFormed(rows'[root])
    && forall x <- rows | x != root :: rows'[x] == rows[x]
  }

  lemma RootUpdatedSameRoots(rows: Rows, rows': Rows, root: nat)
    requires RootUpdated(rows, rows', root)
    ensures SameRoots(rows, rows')
  {
    LinksKeptSameRoots(rows, rows');
  }

  lemma RootUpdatedContained(rows: Rows, rows': Rows, root: nat)
    requires RootUpdated(rows, rows', root) && SameRoots(rows, rows')
    requires AllWellFormed(rows) && Contained(rows)
    ensures AllWellFormed(rows') && Contained(rows')
  {
    forall x <- rows' ensures WellFormed(rows'[x]) {
      assert WellFormed(rows[x]);
    }
    forall x: nat, r: nat | ResolvesTo(rows', x, r) ensures x in rows' && r in rows' && Within(rows'[x], rows'[r]) {
      assert ResolvesTo(rows, x, r);
      assert Within(rows[x], rows[r]);
      if x == root {
        assert Chain(rows, root, root, 0);
        RootUnique(rows, root, root, r);
      }
    }
  }

  lemma RootUpdatedKeeps(rows: Rows, rows': Rows, root: nat)
    requires Inv(rows) && RootUpdated(rows, rows', root)
    ensures Inv(rows') && Evolves(rows, rows') && SameRoots(rows, rows')
  {
    RootUpdatedSameRoots(rows, rows', root);
    SameRootsForest(rows, rows');
    RootUpdatedContained(rows, rows', root);
    SameRootsShare(rows, rows');
    SameRootsLift(rows, rows');
    KeptKeys(rows, rows');
  }

  // ----- A row is created

  ghost predicate Created(rows: Rows, rows': Rows, id: nat) {
    && id !in rows && id in rows' && rows' == rows[id := rows'[id]]
    && !rows'[id].status.Merged? && WellFormed(rows'[id])
    && forall x <- rows :: rows[x].key != rows'[id].key
  }

  lemma CreatedRoots(rows: Rows, rows': Rows, id: nat)
    requires Forest(rows) && Created(rows, rows', id)
    ensures forall x: nat, r: nat | x != id :: ResolvesTo(rows, x, r) <==> ResolvesTo(rows', x, r)
    ensures forall r: nat :: ResolvesTo(rows', id, r) <==> r == id
  {
    forall x: nat, r: nat | ResolvesTo(rows, x, r) ensures ResolvesTo(rows', x, r) {
      var n: nat :| Chain(rows, x, r, n);
      LinksKeptChain(rows, rows', x, r, n);
    }
    assert Chain(rows', id, id, 0);
    forall x: nat, r: nat | x != id && ResolvesTo(rows', x, r) ensures ResolvesTo(rows, x, r) {
      RootEnd(rows', x, r);
      assert Resolves(rows, x);
      var r': nat :| ResolvesTo(rows, x, r');
      assert ResolvesTo(rows', x, r');
      RootUnique(rows', x, r, r');
    }
    forall r: nat | ResolvesTo(rows', id, r) ensures r == id {
      RootUnique(rows', id, r, id);
    }
  }

  lemma CreatedForest(rows: Rows, rows': Rows, id: nat)
    requires Forest(rows) && Created(rows, rows', id)
    ensures Forest(rows')
  {
    CreatedRoots(rows, rows', id);
    forall x <- rows' ensures Resolves(rows', x) {
      if x == id {
        assert ResolvesTo(rows', id, id);
      } else {
        assert Resolves(rows, x);
        var r: nat :| ResolvesTo(rows, x, r);
        assert ResolvesTo(rows', x, r);
      }
    }
  }

  lemma CreatedContained(rows: Rows, rows': Rows, id: nat)
    requires Inv(rows) && Created(rows, rows', id)
    ensures AllWellFormed(rows') && Contained(rows')
  {
    CreatedRoots(rows, rows', id);
    forall x <- rows' ensures WellFormed(rows'[x]) {
      assert x != id ==> WellFormed(rows[x]);
    }
    forall x: nat, r: nat | ResolvesTo(rows', x, r) ensures x in rows' && r in rows' && Within(rows'[x], rows'[r]) {
      if x != id {
        assert ResolvesTo(rows, x, r);
        assert Within(rows[x], rows[r]);
      }
    }
  }

  lemma CreatedEvolves(rows: Rows, rows': Rows, id: nat)
    requires Forest(rows) && Created(rows, rows', id)
    ensures Evolves(rows, rows')
    ensures forall x: nat, r: nat | ResolvesTo(rows, x, r) :: ResolvesTo(rows', x, r)
  {
    CreatedRoots(rows, rows', id);
    forall x: nat, r: nat | ResolvesTo(rows, x, r) ensures ResolvesTo(rows', x, r) && ShareRoot(rows', x, r) {
      RootEnd(rows, x, r);
      assert ResolvesTo(rows', x, r) && ResolvesTo(rows', r, r);
    }
    forall x <- rows ensures x in rows' && Later(rows[x], rows'[x]) {
    }
    CreatedLifts(rows, rows', id);
  }

  lemma CreatedLifts(rows: Rows, rows': Rows, id: nat)
    requires Forest(rows) && Created(rows, rows', id)
    ensures Lifts(rows, rows')
  {
    CreatedRoots(rows, rows', id);
    forall x: nat, r: nat, r': nat ensures Lifted(rows, rows', x, r, r') {
      if ResolvesTo(rows, x, r) && ResolvesTo(rows', x, r') {
        RootEnd(rows, x, r);
        RootUnique(rows', x, r, r');
      }
    }
  }

  lemma CreatedKeeps(rows: Rows, rows': Rows, id: nat)
    requires Inv(rows) && Created(rows, rows', id)
    ensures Inv(rows') && Evolves(rows, rows') && ResolvesTo(rows', id, id)
    ensures forall x: nat, r: nat | ResolvesTo(rows, x, r) :: ResolvesTo(rows', x, r)
  {
    CreatedForest(rows, rows', id);
    CreatedContained(rows, rows', id);
    CreatedEvolves(rows, rows', id);
    assert Chain(rows', id, id, 0);
  }

  // ----- A root becomes an alias of another root

  ghost predicate Absorbed(rows: Rows, rows': Rows, c: nat, s: nat) {
    && Joined(rows, rows', c, s) && rows'.Keys == rows.Keys
    && !rows'[c].status.Merged? && Later(rows[c], rows'[c]) && WellFormed(rows'[c])
    && !Frozen(rows[s]) && rows'[s] == rows[s].(status := Merged, mergedInto := Some(c))
    && Within(rows[s], rows'[c]) && rows[s].semantic <= rows'[c].semantic
  }

  ghost predicate RootsRedirected(rows: Rows, rows': Rows, c: nat, s: nat) {
    forall x: nat, r: nat | ResolvesTo(rows, x, r) :: ResolvesTo(rows', x, if r == s then c else r)
  }

  lemma AbsorbedRoots(rows: Rows, rows': Rows, c: nat, s: nat)
    requires Joined(rows, rows', c, s)
    ensures RootsRedirected(rows, rows', c, s)
  {
    forall x: nat, r: nat | ResolvesTo(rows, x, r) ensures ResolvesTo(rows', x, if r == s then c else r) {
      var n: nat :| Chain(rows, x, r, n);
      JoinedChain(rows, rows', c, s, x, r, n);
    }
  }

  lemma AbsorbedWithin(rows: Rows, rows': Rows, c: nat, s: nat, x: nat, r: nat)
    requires Inv(rows) && Absorbed(rows, rows', c, s) && RootsRedirected(rows, rows', c, s)
    requires ResolvesTo(rows', x, r)
    ensures x in rows' && r in rows' && Within(rows'[x], rows'[r])
  {
    RootEnd(rows', x, r);
    assert Resolves(rows, x);
    var r0: nat :| ResolvesTo(rows, x, r0);
    assert Within(rows[x], rows[r0]);
    RootUnique(rows', x, r, if r0 == s then c else r0);
    if x == c {
      assert Chain(rows, c, c, 0);
      RootUnique(rows, c, c, r0);
    }
  }

  lemma AbsorbedForest(rows: Rows, rows': Rows, c: nat, s: nat)
    requires Forest(rows) && Absorbed(rows, rows', c, s) && RootsRedirected(rows, rows', c, s)
    ensures Forest(rows')
  {
    forall x <- rows' ensures Resolves(rows', x) {
      assert Resolves(rows, x);
      var r: nat :| ResolvesTo(rows, x, r);
      assert ResolvesTo(rows', x, if r == s then c else r);
    }
  }

  lemma AbsorbedEvolves(rows: Rows, rows': Rows, c: nat, s: nat)
    requires Absorbed(rows, rows', c, s) && RootsRedirected(rows, rows', c, s)
    ensures Evolves(rows, rows')
  {
    forall x <- rows ensures x in rows' && Later(rows[x], rows'[x]) {
    }
    forall x: nat, r: nat | ResolvesTo(rows, x, r) ensures ShareRoot(rows', x, r) {
      RootEnd(rows, x, r);
      var r' := if r == s then c else r;
      assert ResolvesTo(rows', x, r') && ResolvesTo(rows', r, r');
    }
    AbsorbedLifts(rows, rows', c, s);
  }

  lemma AbsorbedLifts(rows: Rows, rows': Rows, c: nat, s: nat)
    requires Absorbed(rows, rows', c, s) && RootsRedirected(rows, rows', c, s)
    ensures Lifts(rows, rows')
  {
    forall x: nat, r: nat, r': nat ensures Lifted(rows, rows', x, r, r') {
      if ResolvesTo(rows, x, r) && ResolvesTo(rows', x, r') {
        RootEnd(rows, x, r);
        RootUnique(rows', x, r', if r == s then c else r);
      }
    }
  }

  lemma AbsorbedKeeps(rows: Rows, rows': Rows, c: nat, s: nat)
    requires Inv(rows) && Absorbed(rows, rows', c, s)
    ensures Inv(rows') && Evolves(rows, rows') && RootsRedirected(rows, rows', c, s)
  {
    AbsorbedRoots(rows, rows', c, s);
    AbsorbedForest(rows, rows', c, s);
    AbsorbedEvolves(rows, rows', c, s);
    forall x: nat, r: nat | ResolvesTo(rows', x, r) ensures x in rows' && r in rows' && Within(rows'[x], rows'[r]) {
      AbsorbedWithin(rows, rows', c, s, x, r);
    }
  }

  // ----- Rows are assessed, linked or unlinked

  // What a row may get from outside a reconciliation: another score, which hides
  // the detector's but keeps it, another semantic confidence, another candidate.
  ghost predicate Assessed(e: Event, e': Event) {
    && e' == e.(clip := e'.clip, meta := e'.meta, semantic := e'.semantic, candidate := e'.candidate)
    && DetectorClip(e') == DetectorClip(e) && WellFormed(e')
  }

  ghost predicate Reassessed(rows: Rows, rows': Rows) {
    rows'.Keys == rows.Keys && forall x <- rows :: Assessed(rows[x], rows'[x])
  }

  lemma ReassessedFacts(rows: Rows, rows': Rows)
    requires Reassessed(rows, rows') && SameRoots(rows, rows') && Contained(rows)
    ensures AllWellFormed(rows') && Contained(rows')
  {
    forall x <- rows' ensures WellFormed(rows'[x]) {
      assert Assessed(rows[x], rows'[x]);
    }
    forall x: nat, r: nat | ResolvesTo(rows', x, r) ensures x in rows' && r in rows' && Within(rows'[x], rows'[r]) {
      assert ResolvesTo(rows, x, r);
      assert Within(rows[x], rows[r]);
      assert Assessed(rows[x], rows'[x]) && Assessed(rows[r], rows'[r]);
    }
  }

  lemma ReassessedLinks(rows: Rows, rows': Rows)
    requires Reassessed(rows, rows')
    ensures SameRoots(rows, rows')
    ensures forall x <- rows :: Grown(rows[x], rows'[x]) && rows'[x].key == rows[x].key
    ensures forall x <- rows :: rows'[x].status == rows[x].status && rows'[x].mergedInto == rows[x].mergedInto
  {
    forall x <- rows ensures Grown(rows[x], rows'[x]) && rows'[x].status == rows[x].status
                             && rows'[x].mergedInto == rows[x].mergedInto {
      assert Assessed(rows[x], rows'[x]);
    }
    LinksKeptSameRoots(rows, rows');
  }

  lemma ReassessedKeeps(rows: Rows, rows': Rows)
    requires Inv(rows) && Reassessed(rows, rows')
    ensures Inv(rows') && Outgrows(rows, rows') && SameRoots(rows, rows')
  {
    ReassessedLinks(rows, rows');
    SameRootsForest(rows, rows');
    ReassessedFacts(rows, rows');
    KeptKeys(rows, rows');
    SameRootsShare(rows, rows');
  }
}
