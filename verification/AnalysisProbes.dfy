// Selecting separated analysis probes (app/analysis/audio.py).

module AnalysisProbes {
  import opened Sorting

  function Abs(x: real): real {
    if x < 0.0 then -x else x
  }

  function Clamp(x: real, upper: real): real {
    if x > upper then (if upper > 0.0 then upper else 0.0) else if x > 0.0 then x else 0.0
  }

  predicate Near(x: real, y: real, distance: real) {
    Abs(x - y) < distance
  }

  predicate Close(points: seq<real>, x: real, distance: real) {
    exists i :: 0 <= i < |points| && Near(x, points[i], distance)
  }

  // ----- What is promised

  ghost predicate Ordered(points: seq<real>) {
    forall i, j | 0 <= i < j < |points| :: points[i] <= points[j]
  }

  ghost predicate InRange(points: seq<real>, duration: real) {
    forall i | 0 <= i < |points| :: 0.0 <= points[i] <= duration
  }

  ghost predicate Separated(points: seq<real>, distance: real) {
    forall i, j | 0 <= i < j < |points| :: !Near(points[j], points[i], distance)
  }

  function Anchor(k: nat, duration: real, limit: nat): real
    requires limit > 0
  {
    duration * k as real / (limit + 1) as real
  }

  // ----- Sorting

  predicate Below(x: real, y: real) {
    x < y
  }

  predicate AtMost(x: real, y: real) {
    x <= y
  }

  lemma {:induction false} InsertSeparates(x: real, points: seq<real>, distance: real)
    requires Separated(points, distance) && !Close(points, x, distance)
    ensures Separated(Insert(x, points, Below), distance)
  {
    if points != [] && x >= points[0] {
      var tail := points[1..];
      forall i | 0 <= i < |tail| ensures !Near(x, tail[i], distance) {
        assert tail[i] == points[i + 1];
      }
      InsertSeparates(x, tail, distance);
      var rest := Insert(x, tail, Below);
      forall j | 0 <= j < |rest| ensures !Near(rest[j], points[0], distance) {
        InsertedFrom(x, tail, Below, j);
        if rest[j] != x {
          var k :| 0 <= k < |tail| && tail[k] == rest[j];
          assert rest[j] == points[k + 1];
        }
      }
    } else {
      forall j | 0 <= j < |points| ensures !Near(points[j], x, distance) {
        assert !Near(x, points[j], distance);
      }
    }
  }

  // The first k points in ascending order.
  ghost predicate SortedSoFar(points: seq<real>, k: nat, sorted: seq<real>, distance: real)
    requires k <= |points|
  {
    SortedBy(sorted, AtMost) && Separated(sorted, distance) && multiset(sorted) == multiset(points[..k])
  }

  lemma NextIsFar(points: seq<real>, k: nat, sorted: seq<real>, distance: real)
    requires k < |points| && Separated(points, distance) && multiset(sorted) == multiset(points[..k])
    ensures !Close(sorted, points[k], distance)
  {
    forall i | 0 <= i < |sorted| ensures !Near(points[k], sorted[i], distance) {
      assert sorted[i] in multiset(points[..k]);
      var j :| 0 <= j < k && points[j] == sorted[i];
    }
  }

  lemma SortedNext(points: seq<real>, k: nat, sorted: seq<real>, distance: real)
    requires k < |points| && Separated(points, distance) && SortedSoFar(points, k, sorted, distance)
    ensures SortedSoFar(points, k + 1, Insert(points[k], sorted, Below), distance)
  {
    NextIsFar(points, k, sorted, distance);
    InsertAdds(points[k], sorted, Below);
    InsertSorts(points[k], sorted, Below, AtMost);
    InsertSeparates(points[k], sorted, distance);
    assert points[..k + 1] == points[..k] + [points[k]];
  }

  // The same points in ascending order.
  method SortPoints(points: seq<real>, ghost distance: real) returns (sorted: seq<real>)
    requires Separated(points, distance)
    ensures Ordered(sorted) && Separated(sorted, distance) && multiset(sorted) == multiset(points)
  {
    sorted := [];
    for k := 0 to |points|
      invariant SortedSoFar(points, k, sorted, distance)
    {
      SortedNext(points, k, sorted, distance);
      sorted := Insert(points[k], sorted, Below);
    }
    assert points[..|points|] == points;
    forall i, j | 0 <= i < j < |sorted| ensures sorted[i] <= sorted[j] {
      assert AtMost(sorted[i], sorted[j]);
    }
  }

  lemma SortedKeeps(points: seq<real>, sorted: seq<real>, duration: real, distance: real)
    requires multiset(points) == multiset(sorted) && InRange(points, duration)
    ensures |sorted| == |points| && InRange(sorted, duration)
    ensures forall x :: Close(points, x, distance) ==> Close(sorted, x, distance)
  {
    assert |multiset(points)| == |points| && |multiset(sorted)| == |sorted|;
    forall i | 0 <= i < |sorted| ensures 0.0 <= sorted[i] <= duration {
      assert sorted[i] in multiset(points);
    }
    forall x | Close(points, x, distance) ensures Close(sorted, x, distance) {
      var i :| 0 <= i < |points| && Near(x, points[i], distance);
      assert points[i] in multiset(sorted);
      var j :| 0 <= j < |sorted| && sorted[j] == points[i];
      assert Near(x, sorted[j], distance);
    }
  }

  // ----- Growing the selection

  lemma SelectKeeps(selected: seq<real>, x: real, duration: real, distance: real)
    requires Separated(selected, distance) && InRange(selected, duration)
    requires !Close(selected, x, distance) && 0.0 <= x <= duration
    ensures Separated(selected + [x], distance) && InRange(selected + [x], duration)
    ensures forall y :: Close(selected, y, distance) ==> Close(selected + [x], y, distance)
    ensures distance > 0.0 ==> Close(selected + [x], x, distance)
  {
    var more := selected + [x];
    forall i, j | 0 <= i < j < |more| ensures !Near(more[j], more[i], distance) {
      if j == |selected| {
        assert !Near(x, selected[i], distance);
      }
    }
    forall y | Close(selected, y, distance) ensures Close(more, y, distance) {
      var i :| 0 <= i < |selected| && Near(y, selected[i], distance);
      assert Near(y, more[i], distance);
    }
    assert distance > 0.0 ==> Near(x, more[|selected|], distance);
  }

  // Distance to the nearest selected point; the default when there is none.
  function Nearest(points: seq<real>, x: real, default: real): real {
    if points == [] then default
    else
      var d := Abs(x - points[|points| - 1]);
      if |points| == 1 then d
      else
        var rest := Nearest(points[..|points| - 1], x, default);
        if d < rest then d else rest
  }

  // The first of the anchors that lie farthest from every selected point.
  method PickFarthest(anchors: seq<real>, selected: seq<real>, duration: real) returns (k: nat)
    requires anchors != []
    ensures k < |anchors|
    ensures forall i | 0 <= i < |anchors| :: Nearest(selected, anchors[i], duration) <= Nearest(selected, anchors[k], duration)
    ensures forall i | 0 <= i < k :: Nearest(selected, anchors[i], duration) < Nearest(selected, anchors[k], duration)
  {
    k := 0;
    for j := 1 to |anchors|
      invariant k < j
      invariant forall i | 0 <= i < j :: Nearest(selected, anchors[i], duration) <= Nearest(selected, anchors[k], duration)
      invariant forall i | 0 <= i < k :: Nearest(selected, anchors[i], duration) < Nearest(selected, anchors[k], duration)
    {
      if Nearest(selected, anchors[j], duration) > Nearest(selected, anchors[k], duration) {
        k := j;
      }
    }
  }

  // ----- The selection

  ghost predicate Selection(selected: seq<real>, duration: real, limit: nat, distance: real) {
    |selected| <= limit && Separated(selected, distance) && InRange(selected, duration)
  }

  method SelectPeaks(peaks: seq<real>, duration: real, limit: nat, distance: real) returns (selected: seq<real>)
    requires limit > 0 && duration > 0.0
    ensures Selection(selected, duration, limit, distance)
    ensures |selected| < limit && distance > 0.0 ==>
              forall i | 0 <= i < |peaks| :: Close(selected, Clamp(peaks[i], duration), distance)
  {
    selected := [];
    for k := 0 to |peaks|
      invariant Selection(selected, duration, limit, distance) && |selected| < limit
      invariant distance > 0.0 ==> forall i | 0 <= i < k :: Close(selected, Clamp(peaks[i], duration), distance)
    {
      var offset := Clamp(peaks[k], duration);
      if Close(selected, offset, distance) {
        continue;
      }
      SelectKeeps(selected, offset, duration, distance);
      selected := selected + [offset];
      if |selected| >= limit {
        return;
      }
    }
  }

  // Anchors 1..limit are still open or already near a selected point.
  ghost predicate AnchorsSeen(anchors: seq<real>, selected: seq<real>, duration: real, limit: nat, distance: real)
    requires limit > 0
  {
    && (forall i | 0 <= i < |anchors| :: 0.0 <= anchors[i] <= duration)
    && (distance > 0.0 ==>
          forall k: nat | 1 <= k <= limit ::
            Anchor(k, duration, limit) in anchors || Close(selected, Anchor(k, duration, limit), distance))
    && (distance <= 0.0 ==> |selected| + |anchors| >= limit)
  }

  method AddAnchors(selected0: seq<real>, duration: real, limit: nat, distance: real) returns (selected: seq<real>)
    requires limit > 0 && duration > 0.0 && Selection(selected0, duration, limit, distance)
    ensures Selection(selected, duration, limit, distance)
    ensures forall x :: Close(selected0, x, distance) ==> Close(selected, x, distance)
    ensures |selected| < limit ==>
              distance > 0.0 && forall k: nat | 1 <= k <= limit :: Close(selected, Anchor(k, duration, limit), distance)
  {
    selected := selected0;
    var anchors := seq(limit, k requires 0 <= k < limit => Anchor(k + 1, duration, limit));
    AnchorsStart(anchors, selected, duration, limit, distance);
    while anchors != [] && |selected| < limit
      invariant Selection(selected, duration, limit, distance)
      invariant forall x :: Close(selected0, x, distance) ==> Close(selected, x, distance)
      invariant AnchorsSeen(anchors, selected, duration, limit, distance)
      decreases |anchors|
    {
      var k := PickFarthest(anchors, selected, duration);
      var offset := anchors[k];
      anchors := anchors[..k] + anchors[k + 1..];
      if !Close(selected, offset, distance) {
        SelectKeeps(selected, offset, duration, distance);
        selected := selected + [offset];
      }
    }
  }

  lemma AnchorsStart(anchors: seq<real>, selected: seq<real>, duration: real, limit: nat, distance: real)
    requires limit > 0 && duration > 0.0 && |anchors| == limit
    requires forall k: nat | k < limit :: anchors[k] == Anchor(k + 1, duration, limit)
    ensures AnchorsSeen(anchors, selected, duration, limit, distance)
  {
    forall i: nat | i < |anchors| ensures 0.0 <= anchors[i] <= duration {
    }
    forall k: nat | 1 <= k <= limit ensures Anchor(k, duration, limit) in anchors {
      assert anchors[k - 1] == Anchor(k, duration, limit);
    }
  }

  // At most `limit` points of the recording, in order and apart; when there are
  // fewer, every peak and every anchor is near one of them.
  method AnalysisProbeOffsets(peaks: seq<real>, duration: real, limit: int, minDistance: real)
    returns (points: seq<real>)
    ensures limit <= 0 || duration <= 0.0 ==> points == []
    ensures limit > 0 && duration > 0.0 ==>
              var distance := if minDistance > 0.0 then minDistance else 0.0;
              && |points| <= limit && Ordered(points) && InRange(points, duration) && Separated(points, distance)
              && (|points| < limit ==>
                    && (forall i | 0 <= i < |peaks| :: Close(points, Clamp(peaks[i], duration), distance))
                    && (forall k: nat | 1 <= k <= limit :: Close(points, Anchor(k, duration, limit), distance)))
  {
    if limit <= 0 || duration <= 0.0 {
      return [];
    }
    var distance := if minDistance > 0.0 then minDistance else 0.0;
    var peaksOnly := SelectPeaks(peaks, duration, limit, distance);
    var selected := peaksOnly;
    if |selected| < limit {
      selected := AddAnchors(peaksOnly, duration, limit, distance);
    }
    points := SortPoints(selected, distance);
    SortedKeeps(selected, points, duration, distance);
  }
}
