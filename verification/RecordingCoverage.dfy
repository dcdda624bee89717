// The tolerance-aware sweep over recorded segments
// (app/analysis/hotspot_lifecycle.py).

module RecordingCoverage {
  import opened Reals

  datatype Segment = Segment(start: real, end: real)

  ghost predicate SortedByStart(segments: seq<Segment>) {
    forall i, j | 0 <= i < j < |segments| :: segments[i].start <= segments[j].start
  }

  // ----- The sweep

  function Sweep(segments: seq<Segment>, cursor: real, end: real, tolerance: real): bool {
    if segments == [] then false
    else
      var s, rest := segments[0], segments[1..];
      if s.end < cursor - tolerance then Sweep(rest, cursor, end, tolerance)
      else if s.start > cursor + tolerance then false
      else Max(cursor, s.end) >= end - tolerance || Sweep(rest, Max(cursor, s.end), end, tolerance)
  }

  function Swept(segments: seq<Segment>, start: real, end: real, tolerance: real): bool {
    end <= start || Sweep(segments, start, end, tolerance)
  }

  method RecordingIsContiguous(segments: seq<Segment>, start: real, end: real, tolerance: real) returns (r: bool)
    ensures r == Swept(segments, start, end, tolerance)
  {
    if end <= start {
      return true;
    }
    var cursor := start;
    for k := 0 to |segments|
      invariant Sweep(segments, start, end, tolerance) == Sweep(segments[k..], cursor, end, tolerance)
    {
      var s := segments[k];
      assert segments[k..][0] == s && segments[k..][1..] == segments[k + 1..];
      if s.end < cursor - tolerance {
        continue;
      }
      if s.start > cursor + tolerance {
        return false;
      }
      cursor := Max(cursor, s.end);
      if cursor >= end - tolerance {
        return true;
      }
    }
    r := false;
  }

  // ----- What it decides

  ghost predicate Covers(s: Segment, t: real) {
    s.start <= t <= s.end
  }

  // Nothing is recorded strictly between p and q.
  ghost predicate Free(segments: seq<Segment>, p: real, q: real) {
    forall i, t: real | 0 <= i < |segments| && p < t < q :: !Covers(segments[i], t)
  }

  ghost predicate LongGap(segments: seq<Segment>, start: real, end: real, tolerance: real, p: real, q: real) {
    start <= p && p + tolerance < q <= end && Free(segments, p, q)
  }

  ghost predicate HasLongGap(segments: seq<Segment>, start: real, end: real, tolerance: real) {
    exists p, q :: LongGap(segments, start, end, tolerance, p, q)
  }

  ghost predicate Near(s: Segment, start: real, tolerance: real) {
    s.end >= start - tolerance && s.start <= start + tolerance
  }

  // A range longer than the tolerance is contiguous when no stretch of it longer
  // than the tolerance is free; a shorter one when some segment comes within
  // the tolerance of its start.
  ghost predicate Contiguous(segments: seq<Segment>, start: real, end: real, tolerance: real) {
    if end <= start then true
    else if end - start > tolerance then !HasLongGap(segments, start, end, tolerance)
    else exists i :: 0 <= i < |segments| && Near(segments[i], start, tolerance)
  }

  // Ordered, or inverted by so much that it can never move the cursor.
  predicate Harmless(s: Segment, tolerance: real) {
    s.start <= s.end || s.end + tolerance <= s.start
  }

  // A long gap begins behind the end of a segment that reaches back over it:
  // the sweep can jump past the start of the gap on that segment.
  ghost predicate JumpsGap(segments: seq<Segment>, tolerance: real, i: nat, p: real, q: real)
    requires i < |segments|
  {
    && segments[i].start - tolerance <= p < segments[i].end
    && p + tolerance < q && Free(segments, p, q)
  }

  ghost predicate CanMisjudge(segments: seq<Segment>, tolerance: real) {
    exists i: nat, p, q :: i < |segments| && JumpsGap(segments, tolerance, i, p, q)
  }

  // ----- Exactness

  // What lies before k ends at the cursor or earlier.
  ghost predicate Passed(segments: seq<Segment>, k: nat, cursor: real)
    requires k <= |segments|
  {
    forall i | 0 <= i < k :: segments[i].end <= cursor
  }

  // No gap of the list begins before a segment that the sweep reaches has ended.
  lemma GapIsPastSegment(segments: seq<Segment>, k: nat, cursor: real, end: real, tolerance: real, p: real, q: real)
    requires k < |segments| && !CanMisjudge(segments, tolerance)
    requires segments[k].start <= cursor + tolerance
    requires LongGap(segments, cursor, end, tolerance, p, q)
    ensures Max(cursor, segments[k].end) <= p
  {
    if p < segments[k].end {
      assert JumpsGap(segments, tolerance, k, p, q);
    }
  }

  // The first segment past the tolerance leaves a gap behind the cursor.
  lemma LateSegment(segments: seq<Segment>, k: nat, cursor: real, end: real, tolerance: real)
    requires SortedByStart(segments) && k <= |segments| && Passed(segments, k, cursor)
    requires cursor < end - tolerance && tolerance >= 0.0
    requires k < |segments| ==> segments[k].start > cursor + tolerance
    ensures HasLongGap(segments, cursor, end, tolerance)
  {
    var q := if k < |segments| && segments[k].start <= end then segments[k].start else end;
    assert LongGap(segments, cursor, end, tolerance, cursor, q);
  }

  lemma {:induction false} SweepFindsGaps(segments: seq<Segment>, k: nat, cursor: real, end: real, tolerance: real)
    requires SortedByStart(segments) && tolerance >= 0.0 && !CanMisjudge(segments, tolerance)
    requires k <= |segments| && Passed(segments, k, cursor) && cursor < end - tolerance
    ensures Sweep(segments[k..], cursor, end, tolerance) <==> !HasLongGap(segments, cursor, end, tolerance)
    decreases |segments| - k
  {
    if k == |segments| || segments[k].start > cursor + tolerance {
      LateSegment(segments, k, cursor, end, tolerance);
    }
    if k < |segments| {
      var (s, c) := (segments[k], Max(cursor, segments[k].end));
      assert segments[k..][0] == s && segments[k..][1..] == segments[k + 1..];
      if s.end < cursor - tolerance {
        SweepFindsGaps(segments, k + 1, cursor, end, tolerance);
      } else if s.start <= cursor + tolerance {
        forall p, q | LongGap(segments, cursor, end, tolerance, p, q) ensures LongGap(segments, c, end, tolerance, p, q) {
          GapIsPastSegment(segments, k, cursor, end, tolerance, p, q);
        }
        forall p, q | LongGap(segments, c, end, tolerance, p, q) ensures LongGap(segments, cursor, end, tolerance, p, q) {
        }
        if c < end - tolerance {
          SweepFindsGaps(segments, k + 1, c, end, tolerance);
        }
      }
    }
  }

  lemma {:induction false} SweepOfShortRange(segments: seq<Segment>, cursor: real, end: real, tolerance: real)
    requires SortedByStart(segments) && cursor >= end - tolerance
    ensures Sweep(segments, cursor, end, tolerance)
       <==> exists i :: 0 <= i < |segments| && Near(segments[i], cursor, tolerance)
  {
    if segments != [] {
      SweepOfShortRange(segments[1..], cursor, end, tolerance);
      if segments[0].end < cursor - tolerance {
        assert !Near(segments[0], cursor, tolerance);
        assert forall i | 0 <= i < |segments[1..]| :: segments[1..][i] == segments[i + 1];
        if i :| 0 <= i < |segments| && Near(segments[i], cursor, tolerance) {
          assert Near(segments[1..][i - 1], cursor, tolerance);
        }
      } else if segments[0].start <= cursor + tolerance {
        assert Near(segments[0], cursor, tolerance);
      }
    }
  }

  // A segment that reaches back to the cursor and forward to the end is never missed.
  lemma {:induction false} SweepReaches(segments: seq<Segment>, i: nat, cursor: real, end: real, tolerance: real)
    requires SortedByStart(segments) && i < |segments| && cursor < end - tolerance && tolerance >= 0.0
    requires segments[i].start <= cursor + tolerance && end - tolerance <= segments[i].end
    ensures Sweep(segments, cursor, end, tolerance)
  {
    var (s, rest) := (segments[0], segments[1..]);
    if i > 0 {
      assert s.start <= segments[i].start && rest[i - 1] == segments[i];
      if s.end < cursor - tolerance {
        SweepReaches(rest, i - 1, cursor, end, tolerance);
      } else if Max(cursor, s.end) < end - tolerance {
        SweepReaches(rest, i - 1, Max(cursor, s.end), end, tolerance);
      }
    }
  }

  lemma JumpedGapIsMissed(segments: seq<Segment>, tolerance: real, i: nat, p: real, q: real) returns (end: real)
    requires SortedByStart(segments) && tolerance >= 0.0
    requires i < |segments| && JumpsGap(segments, tolerance, i, p, q)
    ensures Swept(segments, p, end, tolerance) && !Contiguous(segments, p, end, tolerance)
  {
    end := if q <= segments[i].end + tolerance then q else segments[i].end + tolerance;
    assert LongGap(segments, p, end, tolerance, p, end);
    SweepReaches(segments, i, p, end, tolerance);
  }

  // For every sorted list: each range is judged rightly if and only if no
  // segment lets the sweep jump over the start of a long gap.
  lemma SweepIsExactExactlyWhen(segments: seq<Segment>, tolerance: real)
    requires SortedByStart(segments) && tolerance >= 0.0
    ensures (forall start, end :: Swept(segments, start, end, tolerance) == Contiguous(segments, start, end, tolerance))
       <==> !CanMisjudge(segments, tolerance)
  {
    if CanMisjudge(segments, tolerance) {
      var i: nat, p, q :| i < |segments| && JumpsGap(segments, tolerance, i, p, q);
      var end := JumpedGapIsMissed(segments, tolerance, i, p, q);
      assert Swept(segments, p, end, tolerance) != Contiguous(segments, p, end, tolerance);
    } else {
      forall start, end ensures Swept(segments, start, end, tolerance) == Contiguous(segments, start, end, tolerance) {
        if start < end {
          if end - start > tolerance {
            assert segments[0..] == segments;
            SweepFindsGaps(segments, 0, start, end, tolerance);
          } else {
            SweepOfShortRange(segments, start, end, tolerance);
          }
        }
      }
    }
  }

  // A sorted list on which the sweep is right about every range.
  ghost predicate Trusted(segments: seq<Segment>, tolerance: real) {
    SortedByStart(segments) && tolerance >= 0.0 && !CanMisjudge(segments, tolerance)
  }

  // So ordered segments, and inverted ones that never move the cursor, are judged rightly.
  lemma SweepIsExact(segments: seq<Segment>, start: real, end: real, tolerance: real)
    requires SortedByStart(segments) && tolerance >= 0.0
    requires forall i | 0 <= i < |segments| :: Harmless(segments[i], tolerance)
    ensures Swept(segments, start, end, tolerance) <==> Contiguous(segments, start, end, tolerance)
  {
    forall i: nat, p, q | i < |segments| ensures !JumpsGap(segments, tolerance, i, p, q) {
      if JumpsGap(segments, tolerance, i, p, q) {
        var s := segments[i];
        var high := if s.end <= q then s.end else q;
        var t := if p < s.start then s.start else (p + high) / 2.0;
        var covered := Covers(segments[i], t);
        assert false;
      }
    }
    SweepIsExactExactlyWhen(segments, tolerance);
  }

  // A segment inverted by less than the tolerance makes the sweep accept a range
  // in which nothing is recorded.
  lemma InvertedSegmentIsMisjudged()
    ensures var segments := [Segment(5.0, 4.5)];
            Swept(segments, 4.0, 5.5, 1.0) && LongGap(segments, 4.0, 5.5, 1.0, 4.0, 5.5)
  {
    assert Sweep([Segment(5.0, 4.5)], 4.0, 5.5, 1.0);
  }
}
