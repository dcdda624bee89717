// Merging recorded segments into ordered ranges
// (app/analysis/editorial_evidence.py, app/analysis/editorial_evaluation_io.py),
// against the validators of app/analysis/editorial_contracts.py and
// app/analysis/editorial_evaluation.py.

module RangeNormalization {
  import opened Reals
  import opened Wrappers
  import opened Sorting
  import opened TimeRanges

  // Start and end of a stored segment, relative to the origin.
  datatype Segment = Segment(start: Option<real>, end: Option<real>)

  // ----- What the results are judged by

  ghost predicate Covered(ranges: seq<RawRange>, t: real) {
    exists i :: 0 <= i < |ranges| && ranges[i].Covers(t)
  }

  ghost predicate AllAccepted(ranges: seq<RawRange>) {
    forall i | 0 <= i < |ranges| :: ranges[i].Accepted()
  }

  // The check of the range validators: neighbours in order, with a gap.
  predicate NeighboursApart(ranges: seq<RawRange>) {
    forall i | 0 < i < |ranges| :: ranges[i - 1].endS < ranges[i].startS
  }

  // Any two ranges in order, with a gap.
  ghost predicate Apart(ranges: seq<RawRange>) {
    forall i, j | 0 <= i < j < |ranges| :: ranges[i].endS < ranges[j].startS
  }

  lemma {:induction false} NeighboursSuffice(ranges: seq<RawRange>)
    requires AllAccepted(ranges) && NeighboursApart(ranges)
    ensures Apart(ranges)
  {
    if |ranges| > 1 {
      var init, last := ranges[..|ranges| - 1], ranges[|ranges| - 1];
      NeighboursSuffice(init);
      forall i | 0 <= i < |init| ensures ranges[i].endS < last.startS {
        assert ranges[i] == init[i];
        if i < |init| - 1 {
          assert init[i].endS < init[|init| - 1].startS;
        }
      }
    }
  }

  // A window that no block contains has a point outside the union.
  lemma UncoveredPoint(ranges: seq<RawRange>, window: RawRange) returns (t: real)
    requires AllAccepted(ranges) && NeighboursApart(ranges) && window.Accepted()
    requires forall i | 0 <= i < |ranges| :: !ranges[i].Contains(window)
    ensures window.Covers(t) && !Covered(ranges, t)
  {
    NeighboursSuffice(ranges);
    t := window.startS;
    if i :| 0 <= i < |ranges| && ranges[i].Covers(window.startS) {
      assert !ranges[i].Contains(window);
      var bound := NextStart(ranges, i, window.endS);
      t := (ranges[i].endS + bound) / 2.0;
    }
  }

  // An interval lies in the union exactly when one block contains it.
  lemma UnionContainsExactlyBlocks(ranges: seq<RawRange>, window: RawRange)
    requires AllAccepted(ranges) && NeighboursApart(ranges) && window.Accepted()
    ensures (exists i :: 0 <= i < |ranges| && ranges[i].Contains(window))
       <==> (forall t: real | window.Covers(t) :: Covered(ranges, t))
  {
    if forall i | 0 <= i < |ranges| :: !ranges[i].Contains(window) {
      var t := UncoveredPoint(ranges, window);
    } else {
      var i :| 0 <= i < |ranges| && ranges[i].Contains(window);
      forall t: real | window.Covers(t) ensures Covered(ranges, t) {
        assert ranges[i].Covers(t);
      }
    }
  }

  // A point past range i up to which no other range reaches back.
  lemma NextStart(ranges: seq<RawRange>, i: nat, limit: real) returns (bound: real)
    requires AllAccepted(ranges) && Apart(ranges) && i < |ranges| && ranges[i].endS < limit
    ensures ranges[i].endS < bound <= limit
    ensures forall j | 0 <= j < |ranges| && j != i :: ranges[j].endS < ranges[i].startS || bound <= ranges[j].startS
  {
    bound := if i + 1 < |ranges| && ranges[i + 1].startS < limit then ranges[i + 1].startS else limit;
    forall j | 0 <= j < |ranges| && j != i
      ensures ranges[j].endS < ranges[i].startS || bound <= ranges[j].startS
    {
      if j > i + 1 {
        assert ranges[i + 1].endS < ranges[j].startS;
      }
    }
  }

  // ----- Sorting pairs

  predicate NotAfter(a: RawRange, b: RawRange) {
    a.startS < b.startS || (a.startS == b.startS && a.endS <= b.endS)
  }

  ghost predicate Sorted(pairs: seq<RawRange>) {
    SortedBy(pairs, StartsUpTo)
  }

  predicate StartsUpTo(a: RawRange, b: RawRange) {
    a.startS <= b.startS
  }

  method SortPairs(pairs: seq<RawRange>) returns (sorted: seq<RawRange>)
    ensures Sorted(sorted) && multiset(sorted) == multiset(pairs)
  {
    sorted := Sort(pairs, NotAfter, StartsUpTo);
  }

  // ----- Adding one pair to the merged list

  function Push(merged: seq<RawRange>, p: RawRange): seq<RawRange> {
    if merged != [] && p.startS <= merged[|merged| - 1].endS then
      var last := merged[|merged| - 1];
      merged[..|merged| - 1] + [RawRange(last.startS, Max(p.endS, last.endS))]
    else merged + [p]
  }

  // Pushing pairs in the order of their starts keeps the list accepted and apart
  // and adds exactly the points of the pair.
  lemma PushKeeps(merged: seq<RawRange>, p: RawRange)
    requires AllAccepted(merged) && NeighboursApart(merged) && p.Accepted()
    requires merged != [] ==> merged[|merged| - 1].startS <= p.startS
    ensures var m := Push(merged, p);
            && m != [] && AllAccepted(m) && NeighboursApart(m) && m[|m| - 1].startS <= p.startS
            && forall t: real :: Covered(m, t) <==> Covered(merged, t) || p.Covers(t)
  {
    var m := Push(merged, p);
    forall t: real ensures Covered(m, t) <==> Covered(merged, t) || p.Covers(t) {
      if i :| 0 <= i < |merged| && merged[i].Covers(t) {
        assert m[i].Covers(t);
      }
      if p.Covers(t) {
        assert m[|m| - 1].Covers(t);
      }
      if i :| 0 <= i < |m| && m[i].Covers(t) {
        if i < |m| - 1 {
          assert merged[i].Covers(t);
        } else if |m| == |merged| && !p.Covers(t) {
          assert merged[i].Covers(t);
        }
      }
    }
  }

  predicate Timed(s: Segment) {
    s.start.Some? && s.end.Some?
  }

  function Pair(s: Segment): RawRange
    requires Timed(s)
  {
    RawRange(s.start.value, s.end.value)
  }

  // The points that valid segments record.
  ghost predicate Recorded(segments: seq<Segment>, t: real) {
    exists i :: 0 <= i < |segments| && Timed(segments[i]) && Pair(segments[i]).Accepted() && Pair(segments[i]).Covers(t)
  }

  ghost predicate CoveredBySome(pairs: seq<RawRange>, t: real) {
    exists i :: 0 <= i < |pairs| && pairs[i].Accepted() && pairs[i].Covers(t)
  }

  method TimedPairs(segments: seq<Segment>) returns (pairs: seq<RawRange>)
    ensures forall t: real :: CoveredBySome(pairs, t) <==> Recorded(segments, t)
    ensures forall p :: p in pairs <==> exists s <- segments :: Timed(s) && Pair(s) == p
  {
    pairs := [];
    for k := 0 to |segments|
      invariant forall t: real :: CoveredBySome(pairs, t) <==> Recorded(segments[..k], t)
      invariant forall p :: p in pairs <==> exists s <- segments[..k] :: Timed(s) && Pair(s) == p
    {
      if Timed(segments[k]) {
        AppendPair(pairs, Pair(segments[k]));
        pairs := pairs + [Pair(segments[k])];
      }
    }
    assert segments[..|segments|] == segments;
  }

  lemma AppendPair(pairs: seq<RawRange>, p: RawRange)
    ensures forall t: real :: CoveredBySome(pairs + [p], t) <==> CoveredBySome(pairs, t) || (p.Accepted() && p.Covers(t))
  {
    var longer := pairs + [p];
    forall t: real ensures CoveredBySome(longer, t) <==> CoveredBySome(pairs, t) || (p.Accepted() && p.Covers(t)) {
      if i :| 0 <= i < |pairs| && pairs[i].Accepted() && pairs[i].Covers(t) {
        assert longer[i].Covers(t);
      }
      assert longer[|pairs|] == p;
    }
  }

  lemma SameMultisetCovers(a: seq<RawRange>, b: seq<RawRange>)
    requires multiset(a) == multiset(b)
    ensures forall p :: p in a <==> p in b
    ensures forall t: real :: CoveredBySome(a, t) <==> CoveredBySome(b, t)
  {
    assert forall p :: p in a <==> p in multiset(a);
    assert forall p :: p in b <==> p in multiset(b);
    forall t: real ensures CoveredBySome(a, t) <==> CoveredBySome(b, t) {
      if i :| 0 <= i < |a| && a[i].Accepted() && a[i].Covers(t) {
        assert a[i] in b;
      }
      if i :| 0 <= i < |b| && b[i].Accepted() && b[i].Covers(t) {
        assert b[i] in a;
      }
    }
  }

  // What both normalisers have built from the first k sorted pairs.
  ghost predicate Built(merged: seq<RawRange>, pairs: seq<RawRange>, k: nat)
    requires k <= |pairs|
  {
    && AllAccepted(merged) && NeighboursApart(merged)
    && (forall t: real :: Covered(merged, t) <==> CoveredBySome(pairs[..k], t))
    && (merged != [] ==> k > 0 && merged[|merged| - 1].startS <= pairs[k - 1].startS)
  }

  lemma BuildNext(merged: seq<RawRange>, pairs: seq<RawRange>, k: nat)
    requires k < |pairs| && Sorted(pairs) && Built(merged, pairs, k)
    ensures Built(if pairs[k].Accepted() then Push(merged, pairs[k]) else merged, pairs, k + 1)
  {
    assert pairs[..k + 1] == pairs[..k] + [pairs[k]];
    AppendPair(pairs[..k], pairs[k]);
    if pairs[k].Accepted() {
      PushKeeps(merged, pairs[k]);
    }
  }

  // ----- The two normalisers

  // Untimed and invalid segments are skipped.
  method RecordingRanges(segments: seq<Segment>) returns (merged: seq<RawRange>)
    ensures AllAccepted(merged) && NeighboursApart(merged)
    ensures forall t: real :: Covered(merged, t) <==> Recorded(segments, t)
  {
    var timed := TimedPairs(segments);
    var pairs := SortPairs(timed);
    SameMultisetCovers(pairs, timed);
    merged := [];
    for k := 0 to |pairs|
      invariant Built(merged, pairs, k)
    {
      BuildNext(merged, pairs, k);
      var p := pairs[k];
      if p.startS < 0.0 || p.endS <= p.startS {
        continue;
      }
      if merged != [] && p.startS <= merged[|merged| - 1].endS {
        var last := merged[|merged| - 1];
        merged := merged[..|merged| - 1] + [RawRange(last.startS, Max(p.endS, last.endS))];
      } else {
        merged := merged + [p];
      }
    }
    assert pairs[..|pairs|] == pairs;
  }

  method AllTimed(segments: seq<Segment>) returns (r: bool)
    ensures r <==> forall s <- segments :: Timed(s)
  {
    for k := 0 to |segments|
      invariant forall i | 0 <= i < k :: Timed(segments[i])
    {
      if !Timed(segments[k]) {
        assert segments[k] in segments;
        return false;
      }
    }
    r := true;
  }

  method MergePairs(pairs: seq<RawRange>) returns (r: Option<seq<RawRange>>)
    requires Sorted(pairs)
    ensures r.None? <==> exists p <- pairs :: !p.Accepted()
    ensures r.Some? ==> Built(r.value, pairs, |pairs|)
  {
    var merged: seq<RawRange> := [];
    for k := 0 to |pairs|
      invariant Built(merged, pairs, k)
      invariant forall i | 0 <= i < k :: pairs[i].Accepted()
    {
      BuildNext(merged, pairs, k);
      var p := pairs[k];
      if !p.Accepted() {
        assert p in pairs;
        return None;
      }
      if merged != [] && p.startS <= merged[|merged| - 1].endS {
        var previous := merged[|merged| - 1];
        merged := merged[..|merged| - 1];
        p := RawRange(previous.startS, Max(p.endS, previous.endS));
      }
      merged := merged + [p];
    }
    r := Some(merged);
  }

  // Any untimed or invalid segment rejects the whole list.
  method MergedRanges(segments: seq<Segment>) returns (r: Option<seq<RawRange>>)
    ensures r.None? <==> exists s <- segments :: !Timed(s) || !Pair(s).Accepted()
    ensures r.Some? ==>
              && AllAccepted(r.value) && NeighboursApart(r.value)
              && forall t: real :: Covered(r.value, t) <==> Recorded(segments, t)
  {
    var allTimed := AllTimed(segments);
    if !allTimed {
      return None;
    }
    var timed := TimedPairs(segments);
    var pairs := SortPairs(timed);
    SameMultisetCovers(pairs, timed);
    r := MergePairs(pairs);
    assert pairs[..|pairs|] == pairs;
    InvalidSegments(segments, timed, pairs);
  }

  lemma InvalidSegments(segments: seq<Segment>, timed: seq<RawRange>, pairs: seq<RawRange>)
    requires forall s <- segments :: Timed(s)
    requires forall p :: p in timed <==> exists s <- segments :: Timed(s) && Pair(s) == p
    requires forall p :: p in pairs <==> p in timed
    ensures (exists p <- pairs :: !p.Accepted()) <==> exists s <- segments :: !Timed(s) || !Pair(s).Accepted()
  {
    if p :| p in pairs && !p.Accepted() {
      assert p in timed;
    }
    if s :| s in segments && (!Timed(s) || !Pair(s).Accepted()) {
      assert Pair(s) in timed && Pair(s) in pairs;
    }
  }
}
