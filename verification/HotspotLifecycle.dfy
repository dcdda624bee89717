// Reconciling observed hotspots with the stored rows
// (app/analysis/hotspot_lifecycle.py, app/db/hotspot_store.py).

module HotspotLifecycle {
  import opened Reals
  import opened Wrappers
  import opened HotspotForest
  import RecordingCoverage

  datatype Result<+T> = Ok(value: T) | Err

  // One observation of the detector. Text, features and evidence are opaque;
  // `meta` is the clip metadata among the features.
  datatype Payload = Payload(
    key: string,
    session: nat,
    start: real,
    peak: real,
    end: real,
    heat: real,
    clip: real,
    semantic: real,
    coverage: real,
    meta: ClipMeta)
  {
    predicate ScoresOk() {
      0.0 <= heat <= 1.0 && 0.0 <= clip <= 1.0 && 0.0 <= semantic <= 1.0 && 0.0 <= coverage <= 1.0
    }

    predicate Accepted() {
      key != "" && start <= peak <= end && ScoresOk()
    }
  }

  datatype Config = Config(mergeGap: real, confirmDelay: real, tolerance: real)

  // ----- Merging one observation into a row

  function NewEvent(p: Payload): Event {
    Event(p.key, p.session, p.start, p.peak, p.end, Provisional, p.heat, p.clip, p.semantic, p.coverage, p.meta, None, None)
  }

  function AsPayload(e: Event): Payload {
    Payload(e.key, e.session, e.start, e.peak, e.end, e.heat, DetectorClip(e), e.semantic, e.coverage, e.meta)
  }

  predicate Stronger(p: Payload, e: Event) {
    Force(p) > Strength(e)
  }

  function MergePayload(e: Event, p: Payload): Event {
    e.(peak := if Stronger(p, e) then p.peak else e.peak,
       start := Min(e.start, p.start),
       end := Max(e.end, p.end),
       heat := Max(e.heat, p.heat),
       clip := Max(e.clip, p.clip),
       semantic := Max(e.semantic, p.semantic),
       coverage := Max(e.coverage, p.coverage),
       meta := if e.meta.NoMeta? && p.meta.NoMeta? then NoMeta else Detector(Max(DetectorClip(e), p.clip)))
  }

  ghost predicate CoversPayload(e: Event, p: Payload) {
    && e.start <= p.start && p.end <= e.end
    && p.heat <= e.heat && p.clip <= DetectorClip(e) && p.coverage <= e.coverage
  }

  // The same with the semantic confidence, which lasts until an explanation is stored.
  ghost predicate CoversFully(e: Event, p: Payload) {
    CoversPayload(e, p) && p.semantic <= e.semantic
  }

  ghost predicate WithinFully(inner: Event, outer: Event) {
    Within(inner, outer) && inner.semantic <= outer.semantic
  }

  // The strength with which an observation is merged.
  function Force(p: Payload): real {
    Max(p.heat, p.clip)
  }

  // The merge is the least event above both: bounds and scores are joined, the
  // strength is that of the stronger one, and the peak belongs to one of that strength.
  lemma MergePayloadJoins(e: Event, p: Payload)
    requires WellFormed(e) && p.start <= p.peak <= p.end && p.ScoresOk()
    ensures var m := MergePayload(e, p);
            && WellFormed(m) && WithinFully(e, m) && CoversFully(m, p)
            && SightOf(m) in {SightOf(e), (p.peak, Force(p))}
            && (forall other: Event | WithinFully(e, other) && CoversFully(other, p) :: WithinFully(m, other))
            && Strength(m) == Max(Strength(e), Force(p))
            && m.peak == (if Strength(e) < Force(p) then p.peak else e.peak)
  {
  }

  // ----- The status of two merged active rows

  predicate Extends(inner: Event, start: real, end: real) {
    start < inner.start || end > inner.end
  }

  function MergedStatus(left: Event, right: Event): Status {
    if left.status.Confirmed? && right.status.Confirmed? then Confirmed
    else if left.status.Confirmed? || right.status.Confirmed? then
      var (confirmed, pending) := if left.status.Confirmed? then (left, right) else (right, left);
      if Extends(confirmed, pending.start, pending.end) then Enriching else Confirmed
    else if left.status.Enriching? || right.status.Enriching? then Enriching
    else Provisional
  }

  // The result is confirmed exactly when one confirmed row already spans both.
  lemma MergedStatusMeaning(left: Event, right: Event)
    requires left.IsActive() && right.IsActive()
    ensures var s := MergedStatus(left, right);
            && s == MergedStatus(right, left)
            && (s.Confirmed? <==>
                  (left.status.Confirmed? && right.status.Confirmed?)
                  || (left.status.Confirmed? && left.start <= right.start && right.end <= left.end)
                  || (right.status.Confirmed? && right.start <= left.start && left.end <= right.end))
            && (s.Provisional? <==> left.status.Provisional? && right.status.Provisional?)
  {
  }

  function MergeEvents(canonical: Event, source: Event): Event {
    MergePayload(canonical, AsPayload(source)).(status := MergedStatus(canonical, source))
  }

  // The table after one live row has been merged into another.
  function MergedRows(rows: Rows, canonical: nat, source: nat): Rows
    requires canonical in rows && source in rows
  {
    rows[canonical := MergeEvents(rows[canonical], rows[source])]
        [source := rows[source].(status := Merged, mergedInto := Some(canonical))]
  }

  lemma MergeEventsJoins(canonical: Event, source: Event)
    requires WellFormed(canonical) && WellFormed(source) && Live(canonical) && Live(source)
    ensures var m := MergeEvents(canonical, source);
            && WellFormed(m) && Later(canonical, m) && WithinFully(source, m) && Live(m)
  {
    MergePayloadJoins(canonical, AsPayload(source));
  }

  lemma MergedRowsAbsorb(rows: Rows, canonical: nat, source: nat)
    requires Inv(rows) && canonical in rows && source in rows && canonical != source
    requires Live(rows[canonical]) && Live(rows[source]) && rows[canonical].session == rows[source].session
    ensures var rows' := MergedRows(rows, canonical, source);
            && Inv(rows') && Absorbed(rows, rows', canonical, source) && Live(rows'[canonical])
            && Evolves(rows, rows') && RootsRedirected(rows, rows', canonical, source)
  {
    MergeEventsJoins(rows[canonical], rows[source]);
    AbsorbedKeeps(rows, MergedRows(rows, canonical, source), canonical, source);
  }

  // ----- Which rows merge

  function Gap(a: Event, b: Event): real {
    Max(0.0, Max(a.start, b.start) - Min(a.end, b.end))
  }

  function Overlap(a: Event, b: Event): real {
    Max(0.0, Min(a.end, b.end) - Max(a.start, b.start))
  }

  // `related` stands for the comparison of texts and evidence.
  predicate ShouldMerge(left: Event, right: Event, related: bool, segments: seq<RecordingCoverage.Segment>, cfg: Config) {
    && Gap(left, right) <= cfg.mergeGap
    && RecordingCoverage.Swept(segments, Min(left.start, right.start), Max(left.end, right.end), cfg.tolerance)
    && (Overlap(left, right) > 0.0 || related)
  }

  predicate Spans(e: Event, t: real) {
    e.start <= t <= e.end
  }

  predicate Inside(e: Event, t: real) {
    e.start < t < e.end
  }

  // Some moments of the two rows are at most this far apart.
  ghost predicate ComeWithin(a: Event, b: Event, distance: real) {
    exists s, t :: Spans(a, s) && Spans(b, t) && -distance <= s - t <= distance
  }

  ghost predicate ShareInterior(a: Event, b: Event) {
    exists t :: Inside(a, t) && Inside(b, t)
  }

  lemma GapMeaning(a: Event, b: Event, distance: real)
    requires a.start <= a.end && b.start <= b.end
    ensures Gap(a, b) <= distance <==> ComeWithin(a, b, distance)
  {
    var (low, high) := (Max(a.start, b.start), Min(a.end, b.end));
    if Gap(a, b) <= distance {
      var s := if low <= high then low else if a.end <= b.end then a.end else a.start;
      var t := if low <= high then low else if a.end <= b.end then b.start else b.end;
      assert Spans(a, s) && Spans(b, t);
    }
  }

  lemma OverlapMeaning(a: Event, b: Event)
    requires a.start <= a.end && b.start <= b.end
    ensures Overlap(a, b) > 0.0 <==> ShareInterior(a, b)
  {
    if Overlap(a, b) > 0.0 {
      var t := (Max(a.start, b.start) + Min(a.end, b.end)) / 2.0;
      assert Inside(a, t) && Inside(b, t);
    }
  }

  // Two rows belong together when they come near each other, no long stretch
  // between their outer ends is unrecorded, and they overlap or are related.
  ghost predicate BelongTogether(a: Event, b: Event, related: bool, segments: seq<RecordingCoverage.Segment>, cfg: Config) {
    && ComeWithin(a, b, cfg.mergeGap)
    && RecordingCoverage.Contiguous(segments, Min(a.start, b.start), Max(a.end, b.end), cfg.tolerance)
    && (ShareInterior(a, b) || related)
  }

  lemma ShouldMergeMeaning(a: Event, b: Event, related: bool, segments: seq<RecordingCoverage.Segment>, cfg: Config)
    requires a.start <= a.end && b.start <= b.end && RecordingCoverage.Trusted(segments, cfg.tolerance)
    ensures ShouldMerge(a, b, related, segments, cfg) <==> BelongTogether(a, b, related, segments, cfg)
  {
    GapMeaning(a, b, cfg.mergeGap);
    OverlapMeaning(a, b);
    RecordingCoverage.SweepIsExactExactlyWhen(segments, cfg.tolerance);
  }

  // The row is another live row of the session, not in use, that belongs together
  // with the root.
  ghost predicate Joins(rows: Rows, root: nat, id: nat, related: (nat, nat) -> bool,
                        segments: seq<RecordingCoverage.Segment>, cfg: Config)
  {
    && root in rows && id in rows && id != root
    && rows[id].session == rows[root].session && rows[id].IsActive() && rows[id].candidate.None?
    && BelongTogether(rows[root], rows[id], related(root, id), segments, cfg)
  }

  lemma CandidatesJoin(rows: Rows, root: nat, related: (nat, nat) -> bool, segments: seq<RecordingCoverage.Segment>,
                       cfg: Config)
    requires AllWellFormed(rows) && root in rows && RecordingCoverage.Trusted(segments, cfg.tolerance)
    ensures forall id: nat :: IsCandidate(rows, root, id, related, segments, cfg) <==> Joins(rows, root, id, related, segments, cfg)
  {
    forall id: nat
      ensures IsCandidate(rows, root, id, related, segments, cfg) <==> Joins(rows, root, id, related, segments, cfg)
    {
      if id in rows {
        ShouldMergeMeaning(rows[root], rows[id], related(root, id), segments, cfg);
      }
    }
  }

  predicate IsCandidate(rows: Rows, root: nat, id: nat, related: (nat, nat) -> bool,
                        segments: seq<RecordingCoverage.Segment>, cfg: Config)
    requires root in rows
  {
    && id in rows && id != root
    && rows[id].session == rows[root].session && rows[id].IsActive() && rows[id].candidate.None?
    && ShouldMerge(rows[root], rows[id], related(root, id), segments, cfg)
  }

  // The earliest of the rows that merge, ties broken by id.
  predicate NotLater(rows: Rows, a: nat, b: nat)
    requires a in rows && b in rows
  {
    rows[a].start < rows[b].start || (rows[a].start == rows[b].start && a <= b)
  }

  // The members other than the canonical row merged into it, in order.
  function Folded(rows: Rows, canonical: nat, members: seq<nat>): Event
    requires canonical in rows && forall m <- members :: m in rows
  {
    if members == [] then rows[canonical]
    else
      var (init, last) := (members[..|members| - 1], members[|members| - 1]);
      var e := Folded(rows, canonical, init);
      if last == canonical then e else MergeEvents(e, rows[last])
  }

  // ----- Walking a chain of aliases

  // The links from id lead over exactly these aliases to current, in one session.
  ghost predicate Links(rows: Rows, path: seq<nat>, id: nat, current: nat) {
    && id in rows
    && if path == [] then id == current
       else
         && path[0] == id && rows[id].IsAlias()
         && var t := rows[id].mergedInto.value;
            t in rows && rows[t].session == rows[id].session && Links(rows, path[1..], t, current)
  }

  lemma {:induction false} LinksAppend(rows: Rows, path: seq<nat>, id: nat, current: nat)
    requires Links(rows, path, id, current) && current in rows && rows[current].IsAlias()
    requires rows[current].mergedInto.value in rows
    requires rows[rows[current].mergedInto.value].session == rows[current].session
    ensures Links(rows, path + [current], id, rows[current].mergedInto.value)
  {
    if path == [] {
    } else {
      LinksAppend(rows, path[1..], rows[id].mergedInto.value, current);
      assert (path + [current])[1..] == path[1..] + [current];
    }
  }

  // The part of a walk from an alias on it.
  lemma {:induction false} LinksSuffix(rows: Rows, path: seq<nat>, id: nat, current: nat, i: nat)
    requires Links(rows, path, id, current) && i < |path|
    ensures Links(rows, path[i..], path[i], current)
  {
    if i > 0 {
      LinksSuffix(rows, path[1..], rows[id].mergedInto.value, current, i - 1);
      assert path[1..][i - 1..] == path[i..];
    }
  }

  lemma {:induction false} LinksChain(rows: Rows, path: seq<nat>, id: nat, current: nat, r: nat, n: nat)
    requires Links(rows, path, id, current) && Chain(rows, id, r, n)
    ensures n >= |path| && Chain(rows, current, r, n - |path|)
    decreases |path|
  {
    if path != [] {
      LinksChain(rows, path[1..], rows[id].mergedInto.value, current, r, n - 1);
    }
  }

  lemma {:induction false} LinksResolve(rows: Rows, path: seq<nat>, id: nat, current: nat)
    requires Links(rows, path, id, current) && current in rows && !rows[current].IsAlias()
    ensures ResolvesTo(rows, id, current)
    ensures forall i | 0 <= i < |path| :: path[i] in rows && rows[path[i]].IsAlias() && ResolvesTo(rows, path[i], current)
    decreases |path|
  {
    if path == [] {
      assert Chain(rows, current, current, 0);
    } else {
      LinksResolve(rows, path[1..], rows[id].mergedInto.value, current);
      StepRoot(rows, id, current);
      forall i | 0 <= i < |path|
        ensures path[i] in rows && rows[path[i]].IsAlias() && ResolvesTo(rows, path[i], current)
      {
        if i > 0 {
          assert path[i] == path[1..][i - 1];
        }
      }
    }
  }

  // A walk that comes back to an alias it has seen never reaches a root.
  lemma {:induction false} LoopNeverEnds(rows: Rows, loop: seq<nat>, current: nat, r: nat, n: nat)
    requires loop != [] && Links(rows, loop, current, current)
    ensures !Chain(rows, current, r, n)
    decreases n
  {
    if Chain(rows, current, r, n) {
      LinksChain(rows, loop, current, current, r, n);
      LoopNeverEnds(rows, loop, current, r, n - |loop|);
    }
  }

  // The first k aliases of the path point at the root; nothing else has changed.
  ghost predicate Compressing(first: Rows, rows: Rows, path: seq<nat>, k: nat, root: nat)
    requires k <= |path|
  {
    && Compressed(first, rows, root)
    && (forall x <- path[..k] :: x in rows && rows[x].mergedInto == Some(root))
    && (forall x <- rows | x !in path[..k] :: x in first && rows[x] == first[x])
  }

  lemma CompressNext(first: Rows, rows: Rows, path: seq<nat>, k: nat, root: nat)
    requires k < |path| && Compressing(first, rows, path, k, root)
    requires path[k] in first && first[path[k]].IsAlias() && ResolvesTo(first, path[k], root)
    ensures path[k] in rows
    ensures var e := rows[path[k]];
            Compressing(first, if e.mergedInto != Some(root) then rows[path[k] := e.(mergedInto := Some(root))] else rows,
                        path, k + 1, root)
  {
    assert path[..k + 1] == path[..k] + [path[k]];
  }

  // The walk is stuck: a repeated alias, a missing target or one of another session.
  ghost predicate Stuck(rows: Rows, path: seq<nat>, current: nat)
    requires current in rows
  {
    && rows[current].IsAlias()
    && var t := rows[current].mergedInto.value;
       current in path || t !in rows || rows[t].session != rows[current].session
  }

  lemma StuckNeverResolves(rows: Rows, path: seq<nat>, id: nat, current: nat)
    requires Links(rows, path, id, current) && current in rows && Stuck(rows, path, current)
    ensures !Resolves(rows, id)
  {
    forall r: nat, n: nat ensures !Chain(rows, id, r, n) {
      if Chain(rows, id, r, n) {
        LinksChain(rows, path, id, current, r, n);
        if current in path {
          var i :| 0 <= i < |path| && path[i] == current;
          LinksSuffix(rows, path, id, current, i);
          LoopNeverEnds(rows, path[i..], current, r, n - |path|);
        }
      }
    }
  }

  // ----- The table

  class HotspotTable {
    var rows: Rows
    var nextId: nat

    ghost predicate Valid()
      reads this
    {
      Inv(rows) && 1 <= nextId && forall id <- rows :: 1 <= id < nextId
    }

    constructor ()
      ensures Valid() && rows == map[]
    {
      rows, nextId := map[], 1;
      new;
    }

    // The row with a key, if any.
    method FindKey(key: string) returns (id: Option<nat>)
      requires Valid()
      ensures id.Some? ==> id.value in rows && rows[id.value].key == key
      ensures id.None? ==> forall x <- rows :: rows[x].key != key
    {
      for k := 1 to nextId
        invariant forall x <- rows | x < k :: rows[x].key != key
      {
        if k in rows && rows[k].key == key {
          return Some(k);
        }
      }
      id := None;
    }

    method GetOrCreate(p: Payload, sessionExists: bool) returns (r: Result<(nat, bool)>)
      requires Valid()
      modifies this
      ensures Valid()
      ensures r.Err? ==> rows == old(rows)
      ensures r.Ok? ==>
                var (id, created) := r.value;
                && p.Accepted() && id in rows && rows[id].key == p.key && rows[id].session == p.session
                && (created <==> id !in old(rows))
                && rows == (if created then old(rows)[id := NewEvent(p)] else old(rows))
                && (created ==> Created(old(rows), rows, id))
    {
      if !p.Accepted() {
        return Err;
      }
      var found := FindKey(p.key);
      if found.Some? {
        return if rows[found.value].session == p.session then Ok((found.value, false)) else Err;
      }
      if !sessionExists {
        return Err;
      }
      var id := nextId;
      ghost var before := rows;
      rows, nextId := rows[id := NewEvent(p)], nextId + 1;
      CreatedKeeps(before, rows, id);
      assert forall x <- rows :: x == id || x in before;
      r := Ok((id, true));
    }

    // Resolves an alias to its root and points every alias on the way at it.
    // It fails exactly when the chain runs into a cycle, a missing row or
    // another session.
    method Resolve(id: nat) returns (r: Result<nat>, ghost path: seq<nat>)
      requires id in rows
      modifies this`rows
      ensures r.Err? ==> rows == old(rows) && !Resolves(rows, id)
      ensures r.Ok? ==>
                && Links(old(rows), path, id, r.value) && ResolvesTo(old(rows), id, r.value)
                && Compressed(old(rows), rows, r.value)
                && (forall x <- path :: x in rows && rows[x].mergedInto == Some(r.value))
                && (forall x <- rows | x !in path :: rows[x] == old(rows)[x])
    {
      var session := rows[id].session;
      var trail: seq<nat>, seen: set<nat>, current := [], {}, id;
      path := [];
      while rows[current].IsAlias()
        invariant rows == old(rows) && path == trail
        invariant Links(rows, trail, id, current) && current in rows && rows[current].session == session
        invariant seen == (set x | x in trail) && seen <= rows.Keys
        decreases rows.Keys - seen
      {
        if current in seen {
          StuckNeverResolves(rows, trail, id, current);
          return Err, path;
        }
        var target := rows[current].mergedInto.value;
        if target !in rows || rows[target].session != session {
          StuckNeverResolves(rows, trail, id, current);
          return Err, path;
        }
        LinksAppend(rows, trail, id, current);
        seen := seen + {current};
        trail := trail + [current];
        path := trail;
        current := target;
      }
      LinksResolve(rows, trail, id, current);
      Compress(trail, current);
      r := Ok(current);
    }

    method Compress(path: seq<nat>, root: nat)
      requires forall i | 0 <= i < |path| :: path[i] in rows && rows[path[i]].IsAlias() && ResolvesTo(rows, path[i], root)
      modifies this`rows
      ensures Compressed(old(rows), rows, root)
      ensures forall x <- path :: x in rows && rows[x].mergedInto == Some(root)
      ensures forall x <- rows | x !in path :: x in old(rows) && rows[x] == old(rows)[x]
    {
      ghost var first := rows;
      for k := 0 to |path|
        invariant Compressing(first, rows, path, k, root)
      {
        var alias := rows[path[k]];
        CompressNext(first, rows, path, k, root);
        if alias.mergedInto != Some(root) {
          rows := rows[path[k] := alias.(mergedInto := Some(root))];
        }
      }
      assert path[..|path|] == path;
    }

    // Both rows are live roots; the source becomes an alias of the canonical row.
    // Rows of two sessions are never merged.
    method MergeEventInto(canonical: nat, source: nat) returns (r: Result<()>)
      requires Valid() && canonical in rows && source in rows && canonical != source
      requires Live(rows[canonical]) && Live(rows[source])
      modifies this`rows
      ensures Valid()
      ensures r.Err? <==> old(rows[canonical].session != rows[source].session)
      ensures r.Err? ==> rows == old(rows)
      ensures r.Ok? ==>
                && rows == MergedRows(old(rows), canonical, source) && Live(rows[canonical])
                && Absorbed(old(rows), rows, canonical, source)
                && Evolves(old(rows), rows) && RootsRedirected(old(rows), rows, canonical, source)
    {
      if rows[canonical].session != rows[source].session {
        return Err;
      }
      ghost var before := rows;
      var status := MergedStatus(rows[canonical], rows[source]);
      rows := rows[canonical := MergePayload(rows[canonical], AsPayload(rows[source]))];
      rows := rows[canonical := rows[canonical].(status := status)];
      rows := rows[source := rows[source].(status := Merged, mergedInto := Some(canonical))];
      assert rows == MergedRows(before, canonical, source);
      MergedRowsAbsorb(before, canonical, source);
      r := Ok(());
    }

    // Live rows of the session that should merge with the root, by ascending id.
    method MergeCandidates(root: nat, related: (nat, nat) -> bool, segments: seq<RecordingCoverage.Segment>, cfg: Config)
      returns (ids: seq<nat>)
      requires Valid() && root in rows
      ensures Ascending(ids)
      ensures forall id: nat :: id in ids <==> IsCandidate(rows, root, id, related, segments, cfg)
      ensures RecordingCoverage.Trusted(segments, cfg.tolerance) ==>
                forall id: nat :: id in ids <==> Joins(rows, root, id, related, segments, cfg)
    {
      ids := [];
      for k: nat := 1 to nextId
        invariant Ascending(ids) && forall i | 0 <= i < |ids| :: ids[i] < k
        invariant forall id: nat :: id in ids <==> id < k && IsCandidate(rows, root, id, related, segments, cfg)
      {
        if k in rows && k != root && rows[k].session == rows[root].session && rows[k].IsActive() && rows[k].candidate.None? {
          var contiguous := RecordingCoverage.RecordingIsContiguous(
            segments, Min(rows[root].start, rows[k].start), Max(rows[root].end, rows[k].end), cfg.tolerance);
          if Gap(rows[root], rows[k]) <= cfg.mergeGap && contiguous
             && (Overlap(rows[root], rows[k]) > 0.0 || related(root, k)) {
            ids := ids + [k];
          }
        }
      }
      if RecordingCoverage.Trusted(segments, cfg.tolerance) {
        CandidatesJoin(rows, root, related, segments, cfg);
      }
    }

    method PickCanonical(members: seq<nat>) returns (canonical: nat)
      requires members != [] && forall m <- members :: m in rows
      ensures canonical in members && forall m <- members :: NotLater(rows, canonical, m)
      ensures forall m <- members :: rows[canonical].start <= rows[m].start
      ensures forall m <- members :: rows[m].start == rows[canonical].start ==> canonical <= m
    {
      canonical := members[0];
      for k := 1 to |members|
        invariant canonical in members && forall i | 0 <= i < k :: NotLater(rows, canonical, members[i])
      {
        if !NotLater(rows, canonical, members[k]) {
          canonical := members[k];
        }
      }
    }

    // Merges every other member into the canonical row.
    method AbsorbAll(canonical: nat, members: seq<nat>)
      requires Valid() && Mergeable(rows, canonical, members)
      modifies this`rows
      ensures Valid() && Absorbing(old(rows), rows, canonical, members, |members|)
    {
      GroupStarts(rows, canonical, members);
      for k := 0 to |members|
        invariant Valid() && Absorbing(old(rows), rows, canonical, members, k)
      {
        AbsorbNext(canonical, members, k, old(rows));
      }
    }

    method AbsorbNext(canonical: nat, members: seq<nat>, k: nat, ghost first: Rows)
      requires Valid() && k < |members|
      requires Absorbing(first, rows, canonical, members, k)
      modifies this`rows
      ensures Valid() && Absorbing(first, rows, canonical, members, k + 1)
    {
      ghost var before := rows;
      if members[k] != canonical {
        var _ := MergeEventInto(canonical, members[k]);
        EvolvesTransitive(first, before, rows);
        LedGrows(before, rows, canonical, members, k);
      }
      GroupGrows(first, before, rows, canonical, members, k);
    }

    // Finds or creates the row of a payload and resolves it to its root.
    method Locate(p: Payload, expected: nat, sessionExists: bool) returns (r: Result<(nat, nat, bool)>)
      requires Valid()
      modifies this
      ensures Valid()
      ensures r.Err? ==> rows == old(rows)
      ensures r.Ok? ==> p.session == expected && Located(old(rows), rows, p, r.value.0, r.value.1, r.value.2)
    {
      if p.session != expected {
        return Err;
      }
      var made := GetOrCreate(p, sessionExists);
      if made.Err? {
        return Err;
      }
      var (id, created) := made.value;
      ghost var stored := rows;
      StoredEvolves(old(rows), stored, id, created);
      assert Resolves(rows, id);
      var resolved, path := Resolve(id);
      CompressedKeeps(stored, rows, resolved.value);
      LocatedAfter(old(rows), stored, rows, p, id, resolved.value, created);
      r := Ok((id, resolved.value, created));
    }

    // Merges the observed root and its candidates into the earliest of them.
    method MergeGroup(root: nat, related: (nat, nat) -> bool, segments: seq<RecordingCoverage.Segment>, cfg: Config)
      returns (canonical: nat, ghost members: seq<nat>)
      requires Valid() && root in rows && Live(rows[root])
      modifies this`rows
      ensures Valid()
      ensures IsGroupOf(old(rows), root, members, related, segments, cfg) && members[0] == root
      ensures RecordingCoverage.Trusted(segments, cfg.tolerance) ==>
                forall id: nat :: id in members <==> id == root || Joins(old(rows), root, id, related, segments, cfg)
      ensures canonical in members && (forall m <- members :: m in old(rows) && NotLater(old(rows), canonical, m))
      ensures forall m <- members :: m in old(rows) && old(rows)[canonical].start <= old(rows)[m].start
      ensures forall m <- members :: m in old(rows) && (old(rows)[m].start == old(rows)[canonical].start ==> canonical <= m)
      ensures Absorbing(old(rows), rows, canonical, members, |members|)
    {
      var candidates := MergeCandidates(root, related, segments, cfg);
      var all := [root] + candidates;
      MembersMergeable(rows, root, candidates, related, segments, cfg);
      canonical := PickCanonical(all);
      AbsorbAll(canonical, all);
      members := all;
    }

    // One payload: unless its root is frozen, the observation and every
    // candidate end up in one canonical row.
    method ReconcilePayload(p: Payload, expected: nat, sessionExists: bool, related: (nat, nat) -> bool,
                            segments: seq<RecordingCoverage.Segment>, cfg: Config)
      returns (r: Result<nat>, ghost seen: Rows, ghost root: nat, ghost members: seq<nat>)
      requires Valid()
      modifies this
      ensures Valid()
      ensures r.Err? ==> rows == old(rows)
      ensures r.Ok? ==> p.session == expected && Evolves(old(rows), rows) && Settled(rows, p, r.value)
      ensures r.Ok? && root in old(rows) && Frozen(old(rows)[root]) ==> SameFacts(old(rows), rows) && r.value == root
      ensures r.Ok? && !(root in old(rows) && Frozen(old(rows)[root])) ==>
                && Observed(old(rows), seen, root, p)
                && IsGroupOf(seen, root, members, related, segments, cfg)
                && (RecordingCoverage.Trusted(segments, cfg.tolerance) ==>
                      forall id: nat :: id in members <==> id == root || Joins(seen, root, id, related, segments, cfg))
                && r.value in members && (forall m <- members :: m in seen && NotLater(seen, r.value, m))
                && Absorbing(seen, rows, r.value, members, |members|)
      ensures r.Ok? ==> Stems(old(rows), rows, [p])
    {
      root, members, seen := 0, [], rows;
      var located := Locate(p, expected, sessionExists);
      if located.Err? {
        return Err, seen, root, members;
      }
      var (id, target, created) := located.value;
      root := target;
      ghost var found := rows;
      if rows[target].status.Dismissed? || rows[target].candidate.Some? {
        FrozenSettles(old(rows), rows, p, id, target, created);
        FrozenStems(old(rows), rows, p);
        return Ok(target), seen, root, members;
      }
      ObserveInto(target, p, created);
      seen := rows;
      ObservedAfter(old(rows), found, seen, p, id, target, created);
      var canonical: nat;
      canonical, members := MergeGroup(target, related, segments, cfg);
      GroupSettles(old(rows), seen, rows, p, id, target, canonical, members);
      r := Ok(canonical);
    }

    // Confirms every pending row that has ended long enough ago.
    method ConfirmStable(session: nat, observed: Option<real>, force: bool, cfg: Config) returns (confirmed: seq<nat>)
      requires Valid()
      modifies this`rows
      ensures Valid() && Evolves(old(rows), rows) && SameRoots(old(rows), rows)
      ensures rows.Keys == old(rows.Keys)
      ensures forall x <- rows :: rows[x] == if Ready(old(rows)[x], session, observed, force, cfg)
                                             then old(rows)[x].(status := Confirmed) else old(rows)[x]
      ensures forall x: nat :: x in confirmed <==> x in old(rows) && Ready(old(rows)[x], session, observed, force, cfg)
    {
      confirmed := [];
      ghost var first := rows;
      ConfirmStart(rows, session, observed, force, cfg);
      if observed.Some? {
        for k: nat := 1 to nextId
          invariant Valid() && Confirming(first, rows, confirmed, session, observed, force, cfg, k)
        {
          if k in rows && Ready(rows[k], session, observed, force, cfg) {
            ConfirmNext(first, rows, confirmed, session, observed, force, cfg, k);
            rows := rows[k := rows[k].(status := Confirmed)];
            confirmed := confirmed + [k];
          } else {
            ConfirmSkip(first, rows, confirmed, session, observed, force, cfg, k);
          }
        }
      }
    }

    // A whole reconciliation, inside the transaction of its caller: a rejected
    // payload takes every change back.
    method Reconcile(payloads: seq<Payload>, expected: nat, sessionExists: bool, related: nat -> (nat, nat) -> bool,
                     segments: seq<RecordingCoverage.Segment>, observed: Option<real>, force: bool, cfg: Config)
      returns (r: Result<seq<nat>>)
      requires Valid()
      modifies this
      ensures Valid() && Evolves(old(rows), rows)
      ensures r.Err? ==> rows == old(rows)
      ensures r.Ok? ==> |r.value| == |payloads| && AllReached(rows, payloads, r.value, expected)
      ensures Stems(old(rows), rows, payloads)
    {
      var first, firstId := rows, nextId;
      var ids: seq<nat> := [];
      ReconciledStart(rows, payloads, expected);
      for k := 0 to |payloads|
        invariant Valid() && |ids| == k && Reconciled(first, rows, payloads, ids, expected)
      {
        var one := ReconcileNext(payloads, ids, expected, sessionExists, related(k), segments, cfg, first);
        if one.Err? {
          rows, nextId := first, firstId;
          RejectedKeeps(rows, payloads);
          return Err;
        }
        ids := ids + [one.value];
      }
      ghost var before := rows;
      var confirmed := ConfirmStable(expected, observed, force, cfg);
      ReconciledEnd(first, before, rows, payloads, ids, expected);
      r := Ok(ids);
    }

    // A confirmed row is evaluated, with the candidate it is expected to have: it
    // gets its event-level score and, perhaps, an explanation's confidence and a
    // candidate. Other rows are passed over.
    method Evaluate(id: nat, expected: Option<nat>, score: real, semantic: Option<real>, candidate: Option<nat>)
      requires Valid() && Score(score) && (semantic.Some? ==> Score(semantic.value))
      modifies this`rows
      ensures Valid() && rows == EvaluatedRows(old(rows), id, expected, score, semantic, candidate)
    {
      ghost var after := EvaluatedRows(rows, id, expected, score, semantic, candidate);
      EvaluatedKeeps(rows, id, expected, score, semantic, candidate);
      if id in rows && rows[id].status.Confirmed? && rows[id].candidate == expected {
        var e := rows[id];
        if semantic.Some? {
          e := e.(semantic := semantic.value);
        }
        if e.candidate.None? {
          e := e.(candidate := candidate);
        }
        e := e.(clip := score, meta := Detector(DetectorClip(e)));
        rows := rows[id := e];
      }
      assert rows == after;
    }

    // An explanation is stored for the root of a row, whatever its candidate; a
    // dismissed root takes none.
    method Explain(id: nat, semantic: real) returns (ghost root: nat)
      requires Valid() && Score(semantic)
      modifies this`rows
      ensures Valid()
      ensures id !in old(rows) ==> rows == old(rows)
      ensures id in old(rows) ==> ResolvesTo(old(rows), id, root) && Explained(old(rows), rows, root, semantic)
    {
      root := id;
      if id !in rows {
        return;
      }
      assert Resolves(rows, id);
      ghost var first := rows;
      var resolved, path := Resolve(id);
      CompressedKeeps(first, rows, resolved.value);
      root := resolved.value;
      ghost var compressed := rows;
      RootEnd(first, id, root);
      if !rows[resolved.value].status.Dismissed? {
        rows := rows[resolved.value := rows[resolved.value].(semantic := semantic)];
      }
      ExplainedAfter(first, compressed, rows, root, semantic);
    }

    // Every row of a candidate that is cleared away loses its link.
    method Detach(candidate: nat)
      requires Valid()
      modifies this`rows
      ensures Valid() && IsDetached(old(rows), rows, candidate)
    {
      ghost var first := rows;
      for k: nat := 1 to nextId
        invariant nextId == old(nextId) && rows.Keys == first.Keys
        invariant forall x <- rows :: rows[x] == if x < k then Detached(first[x], candidate) else first[x]
      {
        if k in rows && rows[k].candidate == Some(candidate) {
          rows := rows[k := rows[k].(candidate := None)];
        }
      }
      DetachedKeeps(first, rows, candidate);
    }

    method ReconcileNext(payloads: seq<Payload>, ids: seq<nat>, expected: nat, sessionExists: bool,
                         related: (nat, nat) -> bool, segments: seq<RecordingCoverage.Segment>, cfg: Config,
                         ghost first: Rows)
      returns (r: Result<nat>)
      requires Valid() && |ids| < |payloads| && Reconciled(first, rows, payloads, ids, expected)
      modifies this
      ensures Valid()
      ensures r.Ok? ==> Reconciled(first, rows, payloads, ids + [r.value], expected)
    {
      ghost var before := rows;
      var one, seen, root, members := ReconcilePayload(payloads[|ids|], expected, sessionExists, related, segments, cfg);
      if one.Ok? {
        ReconciledNext(first, before, rows, payloads, ids, expected, one.value);
      }
      r := one;
    }

    // The observation reaches the live root of its row.
    method ObserveInto(root: nat, p: Payload, created: bool)
      requires Valid() && root in rows && Live(rows[root]) && p.Accepted()
      modifies this`rows
      ensures Valid() && Evolves(old(rows), rows) && SameRoots(old(rows), rows)
      ensures rows == old(rows)[root := ObservedEvent(old(rows)[root], p, created)]
      ensures root in rows && Live(rows[root]) && CoversFully(rows[root], p)
    {
      var e := rows[root];
      if !created && Extends(e, p.start, p.end) {
        e := e.(status := Enriching);
      }
      MergePayloadJoins(e, p);
      rows := rows[root := MergePayload(e, p)];
      RootUpdatedKeeps(old(rows), rows, root);
    }
  }

  function ObservedEvent(e: Event, p: Payload, created: bool): Event {
    MergePayload(if !created && Extends(e, p.start, p.end) then e.(status := Enriching) else e, p)
  }

  // ----- Where peaks come from

  // What a payload may leave as the peak of a row: merged into it, or created from it.
  function PayloadSights(p: Payload): set<Sight> {
    {(p.peak, Force(p)), SightOf(NewEvent(p))}
  }

  // The peak of x is that of an older row which now shares its root.
  ghost predicate FromRow(rows: Rows, rows': Rows, x: nat, y: nat) {
    x in rows' && y in rows && SightOf(rows'[x]) == SightOf(rows[y]) && ShareRoot(rows', x, y)
  }

  ghost predicate SharesWith(rows: Rows, x: nat, z: nat, p: Payload) {
    z in rows && rows[z].key == p.key && ShareRoot(rows, x, z)
  }

  // The peak of x is that of a payload whose row shares its root.
  ghost predicate FromPayload(rows: Rows, x: nat, p: Payload) {
    x in rows && SightOf(rows[x]) in PayloadSights(p) && exists z :: SharesWith(rows, x, z, p)
  }

  ghost predicate HasStem(rows: Rows, rows': Rows, payloads: seq<Payload>, x: nat) {
    (exists y :: FromRow(rows, rows', x, y)) || (exists p :: p in payloads && FromPayload(rows', x, p))
  }

  // Every peak stems from an older row or a payload that belongs to the same root.
  ghost predicate Stems(rows: Rows, rows': Rows, payloads: seq<Payload>) {
    forall x {:trigger HasStem(rows, rows', payloads, x)} | x in rows' :: HasStem(rows, rows', payloads, x)
  }

  lemma ShareSelf(rows: Rows, x: nat)
    requires Inv(rows) && x in rows
    ensures ShareRoot(rows, x, x)
  {
    assert Resolves(rows, x);
    var r: nat :| ResolvesTo(rows, x, r);
    assert ShareRoot(rows, x, x);
  }

  lemma ShareTransitive(rows: Rows, x: nat, y: nat, z: nat)
    requires ShareRoot(rows, x, y) && ShareRoot(rows, y, z)
    ensures ShareRoot(rows, x, z)
  {
    var r: nat :| ResolvesTo(rows, x, r) && ResolvesTo(rows, y, r);
    var r': nat :| ResolvesTo(rows, y, r') && ResolvesTo(rows, z, r');
    RootUnique(rows, y, r, r');
  }

  lemma ShareFollows(before: Rows, after: Rows, x: nat, y: nat)
    requires KeepsShared(before, after) && ShareRoot(before, x, y)
    ensures ShareRoot(after, x, y)
  {
    var r: nat :| ResolvesTo(before, x, r) && ResolvesTo(before, y, r);
    assert ShareRoot(after, x, r) && ShareRoot(after, y, r);
    var a: nat :| ResolvesTo(after, x, a) && ResolvesTo(after, r, a);
    var b: nat :| ResolvesTo(after, y, b) && ResolvesTo(after, r, b);
    RootUnique(after, r, a, b);
  }

  lemma SameSightStems(rows: Rows, rows': Rows, payloads: seq<Payload>)
    requires Inv(rows') && rows'.Keys == rows.Keys && forall x <- rows :: SightOf(rows'[x]) == SightOf(rows[x])
    ensures Stems(rows, rows', payloads)
  {
    forall x <- rows' ensures HasStem(rows, rows', payloads, x) {
      ShareSelf(rows', x);
      assert FromRow(rows, rows', x, x);
    }
  }

  lemma PayloadFollows(before: Rows, after: Rows, y: nat, x: nat, p: Payload)
    requires Outgrows(before, after) && FromPayload(before, y, p) && FromRow(before, after, x, y)
    ensures FromPayload(after, x, p)
  {
    var z :| SharesWith(before, y, z, p);
    assert Grown(before[z], after[z]);
    ShareFollows(before, after, y, z);
    ShareTransitive(after, x, y, z);
    assert SharesWith(after, x, z, p);
  }

  lemma RowFollows(a: Rows, b: Rows, c: Rows, x: nat, y: nat, z: nat)
    requires Outgrows(b, c) && FromRow(a, b, y, z) && FromRow(b, c, x, y)
    ensures FromRow(a, c, x, z)
  {
    ShareFollows(b, c, y, z);
    ShareTransitive(c, x, y, z);
  }

  lemma StemsTransitive(a: Rows, b: Rows, c: Rows, first: seq<Payload>, second: seq<Payload>)
    requires Outgrows(b, c) && Stems(a, b, first) && Stems(b, c, second)
    ensures Stems(a, c, first + second)
  {
    forall x <- c ensures HasStem(a, c, first + second, x) {
      assert HasStem(b, c, second, x);
      if y :| FromRow(b, c, x, y) {
        assert HasStem(a, b, first, y);
        if z :| FromRow(a, b, y, z) {
          RowFollows(a, b, c, x, y, z);
        } else {
          var p :| p in first && FromPayload(b, y, p);
          PayloadFollows(b, c, y, x, p);
          assert p in first + second;
        }
      } else {
        var p :| p in second && FromPayload(c, x, p);
        assert p in first + second;
      }
    }
  }

  lemma ObservedSight(before: Rows, seen: Rows, root: nat, p: Payload)
    requires Observed(before, seen, root, p) && p.Accepted() && AllWellFormed(before)
    ensures (root in before && SightOf(seen[root]) == SightOf(before[root])) || SightOf(seen[root]) in PayloadSights(p)
  {
    var e := if root in before then before[root] else NewEvent(p);
    MergePayloadJoins(e, p);
    MergePayloadJoins(e.(status := Enriching), p);
  }

  lemma ObservedStems(before: Rows, seen: Rows, root: nat, p: Payload, id: nat)
    requires Observed(before, seen, root, p) && p.Accepted() && AllWellFormed(before) && Inv(seen)
    requires id in seen && seen[id].key == p.key && ResolvesTo(seen, id, root)
    ensures Stems(before, seen, [p])
  {
    forall x <- seen ensures HasStem(before, seen, [p], x) {
      ShareSelf(seen, x);
      if x != root {
        assert seen[x] == before[x].(mergedInto := seen[x].mergedInto);
        assert FromRow(before, seen, x, x);
      } else {
        ObservedSight(before, seen, root, p);
        RootEnd(seen, id, root);
        assert SharesWith(seen, root, id, p);
        assert root in before && SightOf(seen[root]) == SightOf(before[root]) ==> FromRow(before, seen, root, root);
        assert SightOf(seen[root]) in PayloadSights(p) ==> p in [p] && FromPayload(seen, root, p);
      }
    }
  }

  // A merged row shows one of the two sights.
  lemma MergedSight(canonical: Event, source: Event)
    requires WellFormed(canonical) && WellFormed(source)
    ensures var m := MergeEvents(canonical, source);
            WellFormed(m) && (SightOf(m) == SightOf(canonical) || SightOf(m) == SightOf(source))
  {
    MergePayloadJoins(canonical, AsPayload(source));
    assert SightOf(MergeEvents(canonical, source)) == SightOf(MergePayload(canonical, AsPayload(source)));
  }

  // A fold shows the sight of one of its members.
  lemma {:induction false} FoldSight(rows: Rows, canonical: nat, members: seq<nat>) returns (m: nat)
    requires canonical in rows && AllWellFormed(rows) && forall i | 0 <= i < |members| :: members[i] in rows
    ensures (m == canonical || m in members) && m in rows
    ensures WellFormed(Folded(rows, canonical, members)) && SightOf(Folded(rows, canonical, members)) == SightOf(rows[m])
  {
    m := canonical;
    if members != [] {
      var (init, last) := (members[..|members| - 1], members[|members| - 1]);
      m := FoldSight(rows, canonical, init);
      if last != canonical {
        assert WellFormed(rows[last]);
        MergedSight(Folded(rows, canonical, init), rows[last]);
        if SightOf(Folded(rows, canonical, members)) != SightOf(rows[m]) {
          m := last;
        }
      }
    }
  }

  lemma GroupStems(seen: Rows, rows: Rows, canonical: nat, members: seq<nat>)
    requires Inv(seen) && Inv(rows) && Absorbing(seen, rows, canonical, members, |members|)
    ensures Stems(seen, rows, [])
  {
    assert members[..|members|] == members;
    forall x <- rows ensures HasStem(seen, rows, [], x) {
      ShareSelf(rows, x);
      if x != canonical {
        assert FromRow(seen, rows, x, x);
      } else {
        CanonicalStem(seen, rows, canonical, members);
      }
    }
  }

  lemma CanonicalStem(seen: Rows, rows: Rows, canonical: nat, members: seq<nat>)
    requires Inv(seen) && Absorbing(seen, rows, canonical, members, |members|) && members[..|members|] == members
    ensures canonical in rows && exists y :: FromRow(seen, rows, canonical, y)
  {
    var m := FoldSight(seen, canonical, members);
    if m in members {
      var i :| 0 <= i < |members| && members[i] == m;
      assert ResolvesTo(rows, members[i], canonical);
    }
    assert ResolvesTo(rows, canonical, canonical);
    assert ShareRoot(rows, canonical, m);
    assert FromRow(seen, rows, canonical, m);
  }

  // ----- Evaluation, explanation and detachment

  function Evaluated(e: Event, score: real, semantic: Option<real>, candidate: Option<nat>): Event {
    e.(clip := score,
       meta := Detector(DetectorClip(e)),
       semantic := if semantic.Some? then semantic.value else e.semantic,
       candidate := if e.candidate.Some? then e.candidate else candidate)
  }

  function EvaluatedRows(rows: Rows, id: nat, expected: Option<nat>, score: real, semantic: Option<real>,
                         candidate: Option<nat>): Rows
  {
    if id in rows && rows[id].status.Confirmed? && rows[id].candidate == expected then
      rows[id := Evaluated(rows[id], score, semantic, candidate)]
    else rows
  }

  // The root has taken the explanation unless it is dismissed; aliases on the way
  // may point at it directly.
  ghost predicate Explained(rows: Rows, rows': Rows, root: nat, semantic: real) {
    && rows'.Keys == rows.Keys && SameRoots(rows, rows')
    && forall x <- rows :: rows'[x] == rows[x].(mergedInto := rows'[x].mergedInto,
                                                 semantic := if x == root && !rows[x].status.Dismissed? then semantic
                                                             else rows[x].semantic)
  }

  function Detached(e: Event, candidate: nat): Event {
    if e.candidate == Some(candidate) then e.(candidate := None) else e
  }

  ghost predicate IsDetached(rows: Rows, rows': Rows, candidate: nat) {
    rows'.Keys == rows.Keys && forall x <- rows :: rows'[x] == Detached(rows[x], candidate)
  }

  lemma EvaluatedKeeps(rows: Rows, id: nat, expected: Option<nat>, score: real, semantic: Option<real>,
                       candidate: Option<nat>)
    requires Inv(rows) && Score(score) && (semantic.Some? ==> Score(semantic.value))
    ensures var rows' := EvaluatedRows(rows, id, expected, score, semantic, candidate);
            Inv(rows') && Reassessed(rows, rows') && Outgrows(rows, rows')
  {
    var rows' := EvaluatedRows(rows, id, expected, score, semantic, candidate);
    forall x <- rows ensures Assessed(rows[x], rows'[x]) {
      assert WellFormed(rows[x]);
    }
    ReassessedKeeps(rows, rows');
  }

  lemma ExplainedAfter(first: Rows, compressed: Rows, rows: Rows, root: nat, semantic: real)
    requires Inv(compressed) && Score(semantic) && root in compressed && Compressed(first, compressed, root)
    requires SameRoots(first, compressed)
    requires rows == if compressed[root].status.Dismissed? then compressed
                     else compressed[root := compressed[root].(semantic := semantic)]
    ensures Inv(rows) && Explained(first, rows, root, semantic)
  {
    CompressedFacts(first, compressed, root);
    forall x <- compressed ensures Assessed(compressed[x], rows[x]) {
      assert WellFormed(compressed[x]);
    }
    ReassessedKeeps(compressed, rows);
  }

  lemma ExplainedGrows(rows: Rows, rows': Rows, root: nat, semantic: real)
    requires Inv(rows) && Explained(rows, rows', root, semantic)
    ensures Outgrows(rows, rows')
  {
    SameRootsShare(rows, rows');
    forall x <- rows ensures x in rows' && Grown(rows[x], rows'[x]) {
    }
  }

  lemma DetachedKeeps(rows: Rows, rows': Rows, candidate: nat)
    requires Inv(rows) && IsDetached(rows, rows', candidate)
    ensures Inv(rows') && Reassessed(rows, rows') && Outgrows(rows, rows') && SameRoots(rows, rows')
  {
    forall x <- rows ensures Assessed(rows[x], rows'[x]) {
      assert WellFormed(rows[x]);
    }
    ReassessedKeeps(rows, rows');
  }

  // ----- What one payload leaves behind

  // The payload's row leads to this root, which spans it unless it is frozen.
  ghost predicate Settled(rows: Rows, p: Payload, root: nat) {
    && root in rows && !rows[root].status.Merged? && ResolvesTo(rows, root, root)
    && (Frozen(rows[root]) || CoversFully(rows[root], p)) && Leads(rows, p, root)
  }

  ghost predicate Leads(rows: Rows, p: Payload, root: nat) {
    exists id :: id in rows && rows[id].key == p.key && ResolvesTo(rows, id, root)
  }

  // The table in which candidates are looked for: the root alone carries the observation.
  ghost predicate Observed(before: Rows, seen: Rows, root: nat, p: Payload) {
    && root in seen
    && seen[root] == (if root in before then ObservedEvent(before[root], p, false) else ObservedEvent(NewEvent(p), p, true))
    && seen.Keys == before.Keys + {root}
    && forall x <- before | x != root :: seen[x] == before[x].(mergedInto := seen[x].mergedInto)
  }

  // The root together with exactly its merge candidates.
  ghost predicate IsGroupOf(rows: Rows, root: nat, members: seq<nat>, related: (nat, nat) -> bool,
                            segments: seq<RecordingCoverage.Segment>, cfg: Config)
  {
    && root in rows && members != [] && members[0] == root
    && forall id: nat :: id in members <==> id == root || IsCandidate(rows, root, id, related, segments, cfg)
  }

  // What a reconciliation leaves of an accepted payload: its row and the returned
  // id share a root, which spans the payload or is frozen.
  ghost predicate Reached(rows: Rows, p: Payload, id: nat) {
    exists root :: root in rows && ResolvesTo(rows, id, root) && Settled(rows, p, root)
  }

  // A row follows its old root to the root of today.
  lemma FollowsRoot(before: Rows, after: Rows, x: nat, root: nat, r: nat)
    requires KeepsShared(before, after) && ResolvesTo(before, x, root) && ResolvesTo(after, root, r)
    ensures ResolvesTo(after, x, r)
  {
    assert ShareRoot(after, x, root);
    var r': nat :| ResolvesTo(after, x, r') && ResolvesTo(after, root, r');
    RootUnique(after, root, r, r');
  }

  // Today's root spans the old one, which it is unless that has been merged.
  lemma RootToday(before: Rows, after: Rows, root: nat) returns (r: nat)
    requires Inv(after) && Outgrows(before, after) && root in before && !before[root].status.Merged?
    ensures ResolvesTo(after, root, r) && r in after && Within(before[root], after[r])
    ensures root in after && (!after[root].status.Merged? ==> r == root)
  {
    assert root in after && Grown(before[root], after[root]);
    assert Resolves(after, root);
    r :| ResolvesTo(after, root, r);
    assert Within(after[root], after[r]);
    if !after[root].status.Merged? {
      assert Chain(after, root, root, 0);
      RootUnique(after, root, root, r);
    }
  }

  lemma LeadsFollows(before: Rows, after: Rows, p: Payload, root: nat, r: nat)
    requires Outgrows(before, after) && Leads(before, p, root) && ResolvesTo(after, root, r)
    ensures Leads(after, p, r)
  {
    var row :| row in before && before[row].key == p.key && ResolvesTo(before, row, root);
    FollowsRoot(before, after, row, root, r);
    assert Grown(before[row], after[row]);
  }

  lemma CoverFollows(before: Rows, after: Rows, p: Payload, root: nat, r: nat)
    requires Inv(after) && Outgrows(before, after) && root in before && ResolvesTo(after, root, r)
    requires CoversPayload(before[root], p)
    ensures r in after && CoversPayload(after[r], p)
  {
    assert Grown(before[root], after[root]);
    assert Within(after[root], after[r]);
  }

  lemma FullCoverFollows(before: Rows, after: Rows, p: Payload, root: nat, r: nat)
    requires Inv(after) && Evolves(before, after) && ResolvesTo(before, root, root) && ResolvesTo(after, root, r)
    requires root in before && CoversFully(before[root], p)
    ensures r in after && CoversFully(after[r], p)
  {
    EvolvesOutgrows(before, after);
    CoverFollows(before, after, p, root, r);
    assert Lifted(before, after, root, root, r);
  }

  // It stays so under every further reconciliation, also when the id has become an alias.
  lemma StaysReached(before: Rows, after: Rows, p: Payload, id: nat)
    requires Inv(after) && Evolves(before, after) && Reached(before, p, id)
    ensures Reached(after, p, id)
  {
    EvolvesOutgrows(before, after);
    var root: nat :| root in before && ResolvesTo(before, id, root) && Settled(before, p, root);
    var r := RootToday(before, after, root);
    FollowsRoot(before, after, id, root, r);
    LeadsFollows(before, after, p, root, r);
    RootEnd(after, id, r);
    if Frozen(before[root]) {
      assert Later(before[root], after[root]) && SameRow(before[root], after[root]);
    } else {
      FullCoverFollows(before, after, p, root, r);
    }
  }

  ghost predicate AllReached(rows: Rows, payloads: seq<Payload>, ids: seq<nat>, expected: nat) {
    |ids| <= |payloads| && forall i | 0 <= i < |ids| :: payloads[i].session == expected && Reached(rows, payloads[i], ids[i])
  }

  lemma AllStayReached(before: Rows, after: Rows, payloads: seq<Payload>, ids: seq<nat>, expected: nat)
    requires Inv(after) && Evolves(before, after) && AllReached(before, payloads, ids, expected)
    ensures AllReached(after, payloads, ids, expected)
  {
    forall i | 0 <= i < |ids| ensures Reached(after, payloads[i], ids[i]) {
      StaysReached(before, after, payloads[i], ids[i]);
    }
  }

  // What holds after the first |ids| payloads.
  ghost predicate Reconciled(first: Rows, rows: Rows, payloads: seq<Payload>, ids: seq<nat>, expected: nat) {
    && Evolves(first, rows) && AllReached(rows, payloads, ids, expected)
    && Stems(first, rows, payloads[..|ids|])
  }

  lemma ReconciledStart(rows: Rows, payloads: seq<Payload>, expected: nat)
    requires Inv(rows)
    ensures Reconciled(rows, rows, payloads, [], expected)
  {
    EvolvesReflexive(rows);
    SameSightStems(rows, rows, []);
  }

  lemma AllReachedNext(before: Rows, after: Rows, payloads: seq<Payload>, ids: seq<nat>, expected: nat, id: nat)
    requires Inv(after) && Evolves(before, after)
    requires |ids| < |payloads| && AllReached(before, payloads, ids, expected)
    requires payloads[|ids|].session == expected && Settled(after, payloads[|ids|], id)
    ensures AllReached(after, payloads, ids + [id], expected)
  {
    AllStayReached(before, after, payloads, ids, expected);
  }

  lemma ReconciledNext(first: Rows, before: Rows, after: Rows, payloads: seq<Payload>, ids: seq<nat>, expected: nat,
                       id: nat)
    requires Inv(after) && |ids| < |payloads| && Reconciled(first, before, payloads, ids, expected)
    requires Evolves(before, after) && Stems(before, after, [payloads[|ids|]])
    requires payloads[|ids|].session == expected && Settled(after, payloads[|ids|], id)
    ensures Reconciled(first, after, payloads, ids + [id], expected)
  {
    EvolvesOutgrows(before, after);
    StemsTransitive(first, before, after, payloads[..|ids|], [payloads[|ids|]]);
    assert payloads[..|ids| + 1] == payloads[..|ids|] + [payloads[|ids|]];
    EvolvesTransitive(first, before, after);
    AllReachedNext(before, after, payloads, ids, expected, id);
    assert |ids + [id]| == |ids| + 1;
  }

  lemma ReconciledEnd(first: Rows, before: Rows, rows: Rows, payloads: seq<Payload>, ids: seq<nat>, expected: nat)
    requires Inv(rows) && |ids| == |payloads| && Reconciled(first, before, payloads, ids, expected)
    requires Evolves(before, rows) && rows.Keys == before.Keys
    requires forall x <- rows :: rows[x] == before[x].(status := rows[x].status)
    ensures Evolves(first, rows) && AllReached(rows, payloads, ids, expected)
    ensures Stems(first, rows, payloads)
  {
    EvolvesTransitive(first, before, rows);
    AllStayReached(before, rows, payloads, ids, expected);
    assert payloads[..|payloads|] == payloads;
    EvolvesOutgrows(before, rows);
    SameSightStems(before, rows, []);
    StemsTransitive(first, before, rows, payloads, []);
    assert payloads + [] == payloads;
  }

  lemma RejectedKeeps(rows: Rows, payloads: seq<Payload>)
    requires Inv(rows)
    ensures Evolves(rows, rows) && Stems(rows, rows, payloads)
  {
    EvolvesReflexive(rows);
    SameSightStems(rows, rows, payloads);
  }

  // ----- Confirmation

  predicate Ready(e: Event, session: nat, observed: Option<real>, force: bool, cfg: Config) {
    && observed.Some? && e.session == session && e.candidate.None?
    && (e.status.Provisional? || e.status.Enriching?)
    && (force || e.end <= observed.value - cfg.confirmDelay)
  }

  // Once something of the session was observed, a live pending row waits exactly
  // until the observation is the delay past its end, unless confirming is forced.
  lemma PendingRowsWait(e: Event, session: nat, observed: Option<real>, force: bool, cfg: Config)
    ensures Ready(e, session, observed, force, cfg) ==> Live(e) && !e.status.Confirmed? && e.session == session
    ensures Live(e) && !e.status.Confirmed? && e.session == session && observed.Some? ==>
              (Ready(e, session, observed, force, cfg) <==> force || observed.value - e.end >= cfg.confirmDelay)
    ensures Ready(e, session, observed, false, cfg) && cfg.confirmDelay >= 0.0 ==>
              observed.Some? && forall t | Spans(e, t) :: t + cfg.confirmDelay <= observed.value
  {
  }

  // Exactly the ready rows below k have been confirmed.
  ghost predicate Confirming(first: Rows, rows: Rows, confirmed: seq<nat>, session: nat, observed: Option<real>,
                             force: bool, cfg: Config, k: nat)
  {
    && Evolves(first, rows) && SameRoots(first, rows) && rows.Keys == first.Keys
    && (forall x <- first :: rows[x] == if x < k && Ready(first[x], session, observed, force, cfg)
                                        then first[x].(status := Confirmed) else first[x])
    && (forall x: nat :: x in confirmed <==> x < k && x in first && Ready(first[x], session, observed, force, cfg))
  }

  lemma ConfirmStart(rows: Rows, session: nat, observed: Option<real>, force: bool, cfg: Config)
    requires forall x <- rows :: x >= 1
    ensures Confirming(rows, rows, [], session, observed, force, cfg, 1)
    ensures SameRoots(rows, rows)
  {
    EvolvesReflexive(rows);
  }

  lemma ConfirmSkip(first: Rows, rows: Rows, confirmed: seq<nat>, session: nat, observed: Option<real>, force: bool,
                    cfg: Config, k: nat)
    requires Confirming(first, rows, confirmed, session, observed, force, cfg, k)
    requires !(k in rows && Ready(rows[k], session, observed, force, cfg))
    ensures Confirming(first, rows, confirmed, session, observed, force, cfg, k + 1)
  {
  }

  lemma ConfirmNext(first: Rows, before: Rows, confirmed: seq<nat>, session: nat, observed: Option<real>, force: bool,
                    cfg: Config, k: nat)
    requires Inv(before) && Confirming(first, before, confirmed, session, observed, force, cfg, k)
    requires k in before && Ready(before[k], session, observed, force, cfg)
    ensures var rows := before[k := before[k].(status := Confirmed)];
            Inv(rows) && Confirming(first, rows, confirmed + [k], session, observed, force, cfg, k + 1)
  {
    var rows := before[k := before[k].(status := Confirmed)];
    RootUpdatedKeeps(before, rows, k);
    EvolvesTransitive(first, before, rows);
  }

  lemma StoredEvolves(first: Rows, stored: Rows, id: nat, created: bool)
    requires Inv(first) && if created then Created(first, stored, id) else stored == first
    ensures Evolves(first, stored)
  {
    if created {
      CreatedKeeps(first, stored, id);
    } else {
      EvolvesReflexive(first);
    }
  }

  // The row of the payload is in the table and leads to this root; apart from
  // a new row only targets of aliases have changed.
  ghost predicate Located(first: Rows, rows: Rows, p: Payload, id: nat, root: nat, created: bool) {
    && p.Accepted() && Inv(rows) && Evolves(first, rows)
    && id in rows && rows[id].key == p.key && root in rows && ResolvesTo(rows, id, root)
    && !rows[root].status.Merged?
    && rows.Keys == first.Keys + {id} && (created <==> id !in first)
    && (created ==> root == id && rows[root] == NewEvent(p))
    && (!created ==> rows[root] == first[root])
    && (forall x <- first :: rows[x] == first[x].(mergedInto := rows[x].mergedInto))
  }

  lemma LocatedAfter(first: Rows, stored: Rows, rows: Rows, p: Payload, id: nat, root: nat, created: bool)
    requires Inv(stored) && Inv(rows) && p.Accepted() && Evolves(first, stored) && Evolves(stored, rows)
    requires (created <==> id !in first) && stored == (if created then first[id := NewEvent(p)] else first)
    requires id in stored && stored[id].key == p.key
    requires ResolvesTo(stored, id, root) && Compressed(stored, rows, root) && SameRoots(stored, rows)
    ensures Located(first, rows, p, id, root, created)
  {
    EvolvesTransitive(first, stored, rows);
    RootEnd(stored, id, root);
    CompressedFacts(stored, rows, root);
  }

  lemma FrozenSettles(first: Rows, rows: Rows, p: Payload, id: nat, root: nat, created: bool)
    requires Located(first, rows, p, id, root, created) && Frozen(rows[root])
    ensures root in first && Frozen(first[root]) && SameFacts(first, rows) && Settled(rows, p, root)
  {
    RootEnd(rows, id, root);
  }

  lemma ObservedAfter(first: Rows, found: Rows, seen: Rows, p: Payload, id: nat, root: nat, created: bool)
    requires Located(first, found, p, id, root, created) && !Frozen(found[root])
    requires seen == found[root := ObservedEvent(found[root], p, created)]
    requires Evolves(found, seen) && SameRoots(found, seen)
    ensures Evolves(first, seen) && Observed(first, seen, root, p)
    ensures !(root in first && Frozen(first[root]))
    ensures id in seen && seen[id].key == p.key && ResolvesTo(seen, id, root)
  {
    EvolvesTransitive(first, found, seen);
    RootEnd(found, id, root);
  }

  lemma MembersMergeable(rows: Rows, root: nat, candidates: seq<nat>, related: (nat, nat) -> bool,
                         segments: seq<RecordingCoverage.Segment>, cfg: Config)
    requires root in rows && Live(rows[root]) && Ascending(candidates)
    requires forall id: nat :: id in candidates <==> IsCandidate(rows, root, id, related, segments, cfg)
    ensures IsGroupOf(rows, root, [root] + candidates, related, segments, cfg)
    ensures forall c <- [root] + candidates :: Mergeable(rows, c, [root] + candidates)
  {
    var members := [root] + candidates;
    forall i | 0 <= i < |members|
      ensures members[i] in rows && Live(rows[members[i]]) && rows[members[i]].session == rows[root].session
    {
      if i > 0 {
        assert candidates[i - 1] in candidates;
      }
    }
    forall i, j | 0 <= i < j < |members| ensures members[i] != members[j] {
      assert candidates[j - 1] in candidates;
    }
  }

  lemma LiveSettles(seen: Rows, rows: Rows, p: Payload, id: nat, root: nat, canonical: nat, members: seq<nat>)
    requires id in seen && seen[id].key == p.key && ResolvesTo(seen, id, root)
    requires root in seen && CoversFully(seen[root], p) && members != [] && members[0] == root
    requires ResolvesTo(seen, root, root)
    requires Inv(rows) && Absorbing(seen, rows, canonical, members, |members|)
    ensures Settled(rows, p, canonical)
  {
    assert ResolvesTo(rows, members[0], canonical);
    assert Leads(seen, p, root);
    EvolvesOutgrows(seen, rows);
    LeadsFollows(seen, rows, p, root, canonical);
    FullCoverFollows(seen, rows, p, root, canonical);
    RootEnd(rows, root, canonical);
  }

  lemma FrozenStems(before: Rows, rows: Rows, p: Payload)
    requires Inv(rows) && SameFacts(before, rows)
    ensures Stems(before, rows, [p])
  {
    forall x <- before ensures SightOf(rows[x]) == SightOf(before[x]) {
      assert rows[x] == before[x].(mergedInto := rows[x].mergedInto);
    }
    SameSightStems(before, rows, [p]);
  }

  // The observed root has merged with its group.
  lemma GroupSettles(before: Rows, seen: Rows, rows: Rows, p: Payload, id: nat, root: nat, canonical: nat,
                     members: seq<nat>)
    requires Inv(before) && Inv(seen) && Inv(rows) && p.Accepted()
    requires Evolves(before, seen) && Observed(before, seen, root, p) && CoversFully(seen[root], p)
    requires id in seen && seen[id].key == p.key && ResolvesTo(seen, id, root)
    requires members != [] && members[0] == root && Absorbing(seen, rows, canonical, members, |members|)
    ensures Evolves(before, rows) && Settled(rows, p, canonical) && Stems(before, rows, [p])
  {
    EvolvesTransitive(before, seen, rows);
    EvolvesOutgrows(seen, rows);
    RootEnd(seen, id, root);
    LiveSettles(seen, rows, p, id, root, canonical, members);
    ObservedStems(before, seen, root, p, id);
    GroupStems(seen, rows, canonical, members);
    StemsTransitive(before, seen, rows, [p], []);
    assert [p] + [] == [p];
  }

  // ----- Groups of rows that merge

  ghost predicate Mergeable(rows: Rows, canonical: nat, members: seq<nat>) {
    && canonical in members && canonical in rows
    && (forall i, j | 0 <= i < j < |members| :: members[i] != members[j])
    && (forall i | 0 <= i < |members| ::
          members[i] in rows && Live(rows[members[i]]) && rows[members[i]].session == rows[canonical].session)
  }

  // The first k members are aliases of the canonical row, which is their fold;
  // nothing else has changed.
  ghost predicate Grouped(rows: Rows, rows': Rows, canonical: nat, members: seq<nat>, k: nat)
    requires k <= |members| && canonical in rows && forall i | 0 <= i < |members| :: members[i] in rows
  {
    && rows'.Keys == rows.Keys
    && rows'[canonical] == Folded(rows, canonical, members[..k]) && Live(rows'[canonical])
    && rows'[canonical].session == rows[canonical].session
    && (forall i | 0 <= i < k && members[i] != canonical ::
          rows'[members[i]] == rows[members[i]].(status := Merged, mergedInto := Some(canonical)))
    && (forall x <- rows | x != canonical && x !in members[..k] :: rows'[x] == rows[x])
  }

  ghost predicate Led(rows: Rows, canonical: nat, members: seq<nat>, k: nat)
    requires k <= |members|
  {
    ResolvesTo(rows, canonical, canonical) && forall i | 0 <= i < k :: ResolvesTo(rows, members[i], canonical)
  }

  ghost predicate Absorbing(first: Rows, rows: Rows, canonical: nat, members: seq<nat>, k: nat) {
    && Mergeable(first, canonical, members) && k <= |members|
    && Evolves(first, rows) && Grouped(first, rows, canonical, members, k) && Led(rows, canonical, members, k)
  }

  lemma GroupStarts(rows: Rows, canonical: nat, members: seq<nat>)
    requires Mergeable(rows, canonical, members)
    ensures Absorbing(rows, rows, canonical, members, 0)
  {
    EvolvesReflexive(rows);
    assert Chain(rows, canonical, canonical, 0);
    assert members[..0] == [];
  }

  lemma LedGrows(before: Rows, after: Rows, canonical: nat, members: seq<nat>, k: nat)
    requires k < |members| && members[k] != canonical
    requires Led(before, canonical, members, k)
    requires Absorbed(before, after, canonical, members[k]) && RootsRedirected(before, after, canonical, members[k])
    ensures Led(after, canonical, members, k + 1)
  {
    assert ResolvesTo(after, canonical, canonical);
    assert Chain(before, members[k], members[k], 0);
    assert ResolvesTo(before, members[k], members[k]);
    forall i | 0 <= i < k + 1 ensures ResolvesTo(after, members[i], canonical) {
      if i < k {
        assert ResolvesTo(before, members[i], canonical);
      }
    }
  }

  lemma GroupGrows(rows: Rows, before: Rows, after: Rows, canonical: nat, members: seq<nat>, k: nat)
    requires Mergeable(rows, canonical, members) && k < |members|
    requires Grouped(rows, before, canonical, members, k)
    requires if members[k] == canonical then after == before else
               && canonical in after && members[k] in after
               && after == before[canonical := after[canonical]][members[k] := after[members[k]]]
               && after[canonical] == MergeEvents(before[canonical], rows[members[k]]) && Live(after[canonical])
               && after[members[k]] == rows[members[k]].(status := Merged, mergedInto := Some(canonical))
    ensures Grouped(rows, after, canonical, members, k + 1)
  {
    assert members[..k + 1] == members[..k] + [members[k]];
    assert members[..k + 1][..k] == members[..k];
    if members[k] == canonical {
      GroupSkips(rows, before, canonical, members, k);
    } else {
      GroupJoins(rows, before, after, canonical, members, k);
    }
  }

  lemma GroupSkips(rows: Rows, before: Rows, canonical: nat, members: seq<nat>, k: nat)
    requires Mergeable(rows, canonical, members) && k < |members| && members[k] == canonical
    requires Grouped(rows, before, canonical, members, k) && members[..k + 1] == members[..k] + [canonical]
    ensures Grouped(rows, before, canonical, members, k + 1)
  {
    FoldSkips(rows, canonical, members, k);
    forall i | 0 <= i < k + 1 && members[i] != canonical
      ensures before[members[i]] == rows[members[i]].(status := Merged, mergedInto := Some(canonical))
    {
      assert i < k;
    }
    forall x <- rows | x != canonical && x !in members[..k + 1] ensures before[x] == rows[x] {
      assert x !in members[..k];
    }
  }

  lemma FoldSkips(rows: Rows, canonical: nat, members: seq<nat>, k: nat)
    requires Mergeable(rows, canonical, members) && k < |members| && members[k] == canonical
    requires members[..k + 1] == members[..k] + [canonical]
    ensures Folded(rows, canonical, members[..k + 1]) == Folded(rows, canonical, members[..k])
  {
    assert members[..k + 1][..k] == members[..k];
  }

  lemma GroupJoins(rows: Rows, before: Rows, after: Rows, canonical: nat, members: seq<nat>, k: nat)
    requires Mergeable(rows, canonical, members) && k < |members| && members[k] != canonical
    requires Grouped(rows, before, canonical, members, k) && members[..k + 1] == members[..k] + [members[k]]
    requires canonical in after && members[k] in after
    requires after == before[canonical := after[canonical]][members[k] := after[members[k]]]
    requires after[canonical] == MergeEvents(before[canonical], rows[members[k]]) && Live(after[canonical])
    requires after[members[k]] == rows[members[k]].(status := Merged, mergedInto := Some(canonical))
    ensures Grouped(rows, after, canonical, members, k + 1)
  {
    GroupFold(rows, canonical, members, k);
    forall i | 0 <= i < k + 1 && members[i] != canonical
      ensures after[members[i]] == rows[members[i]].(status := Merged, mergedInto := Some(canonical))
    {
      if i < k {
        assert members[i] != members[k];
      }
    }
  }

  lemma GroupFold(rows: Rows, canonical: nat, members: seq<nat>, k: nat)
    requires Mergeable(rows, canonical, members) && k < |members| && members[k] != canonical
    requires members[..k + 1] == members[..k] + [members[k]]
    ensures Folded(rows, canonical, members[..k + 1]) == MergeEvents(Folded(rows, canonical, members[..k]), rows[members[k]])
  {
    assert members[..k + 1][..k] == members[..k];
  }

  // A root that reconciliation may change.
  predicate Live(e: Event) {
    e.IsActive() && e.candidate.None?
  }

  ghost predicate Ascending(ids: seq<nat>) {
    forall i, j | 0 <= i < j < |ids| :: ids[i] < ids[j]
  }
}
