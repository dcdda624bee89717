// Maximum one-to-one matching of predicted and reference intervals
// (app/analysis/editorial_evaluation.py).

module IntervalMatching {
  import opened Reals
  import opened Wrappers
  import opened TimeRanges

  // ----- Intersection over union

  function Iou(a: TimeRange, b: TimeRange): (r: real)
    ensures 0.0 <= r <= 1.0
    ensures r == 1.0 <==> a == b
    ensures r > 0.0 <==> exists t :: a.Interior(t) && b.Interior(t)
  {
    var overlap := Max(0.0, Min(a.endS, b.endS) - Max(a.startS, b.startS));
    var hull := Max(a.endS, b.endS) - Min(a.startS, b.startS);
    var mid := (Max(a.startS, b.startS) + Min(a.endS, b.endS)) / 2.0;
    assert overlap > 0.0 ==> a.Interior(mid) && b.Interior(mid);
    assert (overlap / hull) * hull == overlap;
    overlap / hull
  }

  // What both ranges cover and what either covers, for ranges with a common
  // interior point.
  lemma CommonAndJoint(a: TimeRange, b: TimeRange) returns (both: RawRange, either: RawRange)
    requires exists t :: a.Interior(t) && b.Interior(t)
    ensures both == RawRange(Max(a.startS, b.startS), Min(a.endS, b.endS)) && both.startS < both.endS
    ensures either == RawRange(Min(a.startS, b.startS), Max(a.endS, b.endS)) && either.startS < either.endS
    ensures forall t :: both.Covers(t) <==> a.Covers(t) && b.Covers(t)
    ensures forall t :: either.Covers(t) <==> a.Covers(t) || b.Covers(t)
  {
    both := RawRange(Max(a.startS, b.startS), Min(a.endS, b.endS));
    either := RawRange(Min(a.startS, b.startS), Max(a.endS, b.endS));
  }

  lemma QuotientTimes(x: real, y: real)
    requires y > 0.0
    ensures (x / y) * y == x
  {
  }

  // The ratio is the length of what both ranges cover over the length of what
  // either covers; ranges without a common interior point have ratio zero.
  lemma IouIsRatio(a: TimeRange, b: TimeRange) returns (both: RawRange, either: RawRange)
    requires exists t :: a.Interior(t) && b.Interior(t)
    ensures forall t :: both.Covers(t) <==> a.Covers(t) && b.Covers(t)
    ensures forall t :: either.Covers(t) <==> a.Covers(t) || b.Covers(t)
    ensures either.startS < either.endS
    ensures Iou(a, b) * (either.endS - either.startS) == both.endS - both.startS
  {
    both, either := CommonAndJoint(a, b);
    QuotientTimes(both.endS - both.startS, either.endS - either.startS);
  }

  // ----- Matchings of the bipartite graph "IoU reaches the threshold"

  type Edges = seq<seq<nat>>
  type Matched = map<nat, nat> // reference index to prediction index, as in the source

  // A one-to-one set of (prediction, reference) pairs that all reach the threshold.
  ghost predicate OneToOne(pairs: set<(nat, nat)>, predictions: seq<TimeRange>, truth: seq<TimeRange>, threshold: real)
  {
    && (forall p <- pairs :: p.0 < |predictions| && p.1 < |truth| && Iou(predictions[p.0], truth[p.1]) >= threshold)
    && (forall p, q | p in pairs && q in pairs :: p.0 == q.0 || p.1 == q.1 ==> p == q)
  }

  ghost predicate Injective(m: Matched) {
    forall r, s | r in m && s in m :: m[r] == m[s] ==> r == s
  }

  ghost predicate Matching(edges: Edges, m: Matched) {
    && (forall r <- m :: m[r] < |edges| && r in edges[m[r]])
    && Injective(m)
  }

  // No edge leaves D for an unmatched reference or for one matched outside D.
  ghost predicate Saturated(edges: Edges, m: Matched, D: set<nat>) {
    forall l <- D :: l < |edges| && forall r <- edges[l] :: r in m && m[r] in D
  }

  // Exactly the predictions below n are decided: matched, or in D.
  ghost predicate Decided(m: Matched, D: set<nat>, n: nat) {
    && (forall l <- m.Values :: l < n)
    && (forall l: nat | l < n :: l in m.Values || l in D)
  }

  // ----- The Hall-deficiency bound

  lemma {:induction false} InjectiveCardinality(m: Matched)
    requires Injective(m)
    ensures |m.Values| == |m.Keys| == |m|
  {
    if m.Keys == {} {
      assert m.Values == {};
    } else {
      var r :| r in m;
      var rest := m - {r};
      InjectiveCardinality(rest);
      assert m.Keys == rest.Keys + {r};
      assert m.Values == rest.Values + {m[r]};
    }
  }

  lemma SubsetCardinality<T>(a: set<T>, b: set<T>)
    requires a <= b
    ensures |a| <= |b|
  {
    assert b == a + (b - a);
  }

  // The references that m matches into the predictions of D.
  ghost function Into(m: Matched, D: set<nat>): (inside: Matched)
    ensures inside.Values == m.Values * D
  {
    var inside := map r | r in m && m[r] in D :: m[r];
    assert inside.Values == m.Values * D by {
      forall l | l in m.Values * D ensures l in inside.Values {
        var r :| r in m && m[r] == l;
        assert r in inside && inside[r] == l;
      }
    }
    inside
  }

  lemma SaturatedBoundsInside(edges: Edges, m: Matched, D: set<nat>, other: Matched)
    requires Matching(edges, m) && Matching(edges, other) && Saturated(edges, m, D)
    ensures |other.Values * D| <= |m.Values * D|
  {
    var inside, otherInside := Into(m, D), Into(other, D);
    assert otherInside.Keys <= inside.Keys;
    SubsetCardinality(otherInside.Keys, inside.Keys);
    InjectiveCardinality(inside);
    InjectiveCardinality(otherInside);
  }

  lemma SplitCardinality<T>(a: set<T>, b: set<T>)
    ensures |a| == |a * b| + |a - b|
  {
    assert a == (a * b) + (a - b);
  }

  // A saturated set holding every unmatched prediction certifies that no matching is larger.
  lemma DeficiencyBound(edges: Edges, m: Matched, D: set<nat>, other: Matched)
    requires Matching(edges, m) && Matching(edges, other) && Saturated(edges, m, D)
    requires Decided(m, D, |edges|)
    ensures |other| <= |m|
  {
    SaturatedBoundsInside(edges, m, D, other);
    assert other.Values - D <= m.Values - D;
    SubsetCardinality(other.Values - D, m.Values - D);
    SplitCardinality(other.Values, D);
    SplitCardinality(m.Values, D);
    InjectiveCardinality(m);
    InjectiveCardinality(other);
  }

  // ----- Breadth-first search for an augmenting path

  type Parents = map<nat, Option<(nat, nat)>>

  // The parent chain: every discovered prediction except the start was reached
  // over an edge to the reference it is matched with, from a prediction of
  // smaller depth.
  ghost predicate SearchTree(edges: Edges, m: Matched, start: nat, parents: Parents, depth: map<nat, nat>) {
    && parents.Keys == depth.Keys
    && start in parents
    && (forall x <- parents :: x < |edges| && (parents[x].None? <==> x == start))
    && (forall x {:trigger TreeLink(edges, m, parents, depth, x)} | x in parents && parents[x].Some? ::
          TreeLink(edges, m, parents, depth, x))
  }

  // What holds of a discovered prediction other than the start whatever the
  // matching has become since.
  ghost predicate SearchTreeLink(edges: Edges, parents: Parents, depth: map<nat, nat>, x: nat) {
    && parents.Keys == depth.Keys && x in parents && parents[x].Some?
    && var (l, r) := parents[x].value;
       l in parents && depth[l] < depth[x] && l < |edges| && r in edges[l]
  }

  ghost predicate TreeLink(edges: Edges, m: Matched, parents: Parents, depth: map<nat, nat>, x: nat) {
    && SearchTreeLink(edges, parents, depth, x)
    && parents[x].value.1 in m && m[parents[x].value.1] == x
  }

  ghost predicate Distinct(s: seq<nat>) {
    forall i, j | 0 <= i < j < |s| :: s[i] != s[j]
  }

  ghost predicate Explored(edges: Edges, m: Matched, l: nat, parents: Parents) {
    l < |edges| && forall r <- edges[l] :: r in m && m[r] in parents
  }

  lemma {:induction false} BoundedCardinality(s: set<nat>, n: nat)
    requires forall x <- s :: x < n
    ensures |s| <= n
  {
    if n == 0 {
      assert s == {};
    } else {
      BoundedCardinality(s - {n - 1}, n - 1);
    }
  }

  // Discovered predictions are the finished ones and, disjointly, the queued ones.
  ghost predicate Frontier(edges: Edges, m: Matched, start: nat, parents: Parents, depth: map<nat, nat>,
                           queue: seq<nat>, done: set<nat>)
  {
    && SearchTree(edges, m, start, parents, depth)
    && Distinct(queue)
    && parents.Keys == done + (set l | l in queue)
    && done !! (set l | l in queue)
  }

  lemma Discover(edges: Edges, m: Matched, start: nat, parents: Parents, depth: map<nat, nat>,
                 queue: seq<nat>, done: set<nat>, left: nat, right: nat)
    requires Matching(edges, m) && start !in m.Values
    requires Frontier(edges, m, start, parents, depth, queue, done)
    requires left in done && right in edges[left] && right in m && m[right] !in parents
    ensures Frontier(edges, m, start, parents[m[right] := Some((left, right))],
                     depth[m[right] := depth[left] + 1], queue + [m[right]], done)
  {
    var x := m[right];
    assert x in m.Values;
    var parents', queue' := parents[x := Some((left, right))], queue + [x];
    assert (set l | l in queue') == (set l | l in queue) + {x};
    assert parents'.Keys == parents.Keys + {x};
    var depth' := depth[x := depth[left] + 1];
    forall y | y in parents' && parents'[y].Some? ensures TreeLink(edges, m, parents', depth', y) {
      if y != x {
        assert TreeLink(edges, m, parents, depth, y);
      }
    }
  }

  lemma InitialFrontier(edges: Edges, m: Matched, start: nat)
    requires start < |edges|
    ensures Frontier(edges, m, start, map[start := None], map[start := 0], [start], {})
  {
    assert (set l | l in [start]) == {start};
  }

  lemma TakeNext(edges: Edges, m: Matched, start: nat, parents: Parents, depth: map<nat, nat>,
                 queue: seq<nat>, done: set<nat>)
    requires queue != []
    requires Frontier(edges, m, start, parents, depth, queue, done)
    ensures Frontier(edges, m, start, parents, depth, queue[1..], done + {queue[0]})
    ensures |done| < |done + {queue[0]}| <= |edges|
  {
    BoundedCardinality(done + {queue[0]}, |edges|);
  }

  // The search has found an unmatched reference.
  ghost predicate EndsPath(edges: Edges, m: Matched, parents: Parents, end: (nat, nat)) {
    end.0 in parents && end.0 < |edges| && end.1 in edges[end.0] && end.1 !in m
  }

  ghost predicate AllExplored(edges: Edges, m: Matched, done: set<nat>, parents: Parents) {
    forall l <- done :: Explored(edges, m, l, parents)
  }

  lemma ExploreNext(edges: Edges, m: Matched, done: set<nat>, left: nat, parents0: Parents, parents: Parents)
    requires AllExplored(edges, m, done, parents0) && parents0.Keys <= parents.Keys
    requires Explored(edges, m, left, parents)
    ensures AllExplored(edges, m, done + {left}, parents)
  {
    forall l <- done ensures Explored(edges, m, l, parents) {
      assert Explored(edges, m, l, parents0);
    }
  }

  // An exhausted queue leaves a saturated set of discovered predictions.
  lemma Exhausted(edges: Edges, m: Matched, start: nat, parents: Parents, depth: map<nat, nat>, done: set<nat>)
    requires Frontier(edges, m, start, parents, depth, [], done)
    requires AllExplored(edges, m, done, parents)
    ensures Saturated(edges, m, parents.Keys) && start in parents
  {
    forall l <- parents.Keys
      ensures l < |edges| && forall r <- edges[l] :: r in m && m[r] in parents.Keys
    {
      assert Explored(edges, m, l, parents);
    }
  }

  // The inner loop: scan the references of one prediction taken off the queue.
  method ScanEdges(edges: Edges, m: Matched, start: nat, left: nat, parents0: Parents, queue0: seq<nat>,
                   ghost depth0: map<nat, nat>, ghost done: set<nat>)
    returns (parents: Parents, queue: seq<nat>, terminal: Option<(nat, nat)>, ghost depth: map<nat, nat>)
    requires Matching(edges, m) && start !in m.Values
    requires Frontier(edges, m, start, parents0, depth0, queue0, done) && left in done
    ensures Frontier(edges, m, start, parents, depth, queue, done)
    ensures parents0.Keys <= parents.Keys
    ensures terminal.Some? ==> EndsPath(edges, m, parents, terminal.value)
    ensures terminal.None? ==> Explored(edges, m, left, parents)
  {
    parents, queue, depth, terminal := parents0, queue0, depth0, None;
    assert left in parents;
    for k := 0 to |edges[left]|
      invariant Frontier(edges, m, start, parents, depth, queue, done)
      invariant parents0.Keys <= parents.Keys
      invariant forall j | 0 <= j < k :: edges[left][j] in m && m[edges[left][j]] in parents
    {
      var right := edges[left][k];
      if right !in m {
        terminal := Some((left, right));
        return;
      }
      var previous := m[right];
      if previous !in parents {
        Discover(edges, m, start, parents, depth, queue, done, left, right);
        parents := parents[previous := Some((left, right))];
        depth := depth[previous := depth[left] + 1];
        queue := queue + [previous];
      }
    }
  }

  method FindAugmentingPath(edges: Edges, m: Matched, start: nat)
    returns (parents: Parents, terminal: Option<(nat, nat)>, ghost depth: map<nat, nat>)
    requires start < |edges| && start !in m.Values
    requires Matching(edges, m)
    ensures SearchTree(edges, m, start, parents, depth)
    ensures terminal.Some? ==> EndsPath(edges, m, parents, terminal.value)
    ensures terminal.None? ==> Saturated(edges, m, parents.Keys) && start in parents
  {
    parents, depth := map[start := None], map[start := 0];
    var queue := [start];
    terminal := None;
    ghost var done: set<nat> := {};
    InitialFrontier(edges, m, start);
    while queue != [] && terminal.None?
      invariant Frontier(edges, m, start, parents, depth, queue, done)
      invariant terminal.None? ==> AllExplored(edges, m, done, parents)
      invariant terminal.Some? ==> EndsPath(edges, m, parents, terminal.value)
      decreases |edges| - |done|, terminal.None?
    {
      var left := queue[0];
      TakeNext(edges, m, start, parents, depth, queue, done);
      ghost var done0, parents0 := done, parents;
      done := done + {left};
      parents, queue, terminal, depth := ScanEdges(edges, m, start, left, parents, queue[1..], depth, done);
      if terminal.None? {
        ExploreNext(edges, m, done0, left, parents0, parents);
      }
    }
    if terminal.None? {
      Exhausted(edges, m, start, parents, depth, done);
    }
  }

  // ----- Flipping the path found

  // In the middle of a flip, `right` is about to be matched with `left`: all
  // other pairs form a matching of the old predictions, the chain above `left`
  // is untouched, and `right` is not a neighbour of the saturated set D.
  ghost predicate Flipping(edges: Edges, lefts: set<nat>, m: Matched, parents: Parents,
                           depth: map<nat, nat>, D: set<nat>, left: nat, right: nat)
  {
    && parents.Keys == depth.Keys && left in parents && left < |edges| && right in edges[left]
    && Matching(edges, m - {right}) && (m - {right}).Values == lefts
    && (right in m ==> m[right] !in D && m[right] in parents && depth[left] < depth[m[right]])
    && (forall x <- parents | depth[x] <= depth[left] && parents[x].Some? ::
          parents[x].value.1 in m && m[parents[x].value.1] == x)
    && Saturated(edges, m, D)
  }

  lemma FlipUpdate(edges: Edges, lefts: set<nat>, m: Matched, parents: Parents,
                   depth: map<nat, nat>, D: set<nat>, left: nat, right: nat)
    requires Flipping(edges, lefts, m, parents, depth, D, left, right)
    ensures Saturated(edges, m[right := left], D) && left !in D
  {
  }

  lemma AddPair(m: Matched, right: nat, left: nat)
    requires right !in m
    ensures m[right := left].Values == m.Values + {left}
    ensures Injective(m) && left !in m.Values ==> Injective(m[right := left])
  {
    var m' := m[right := left];
    forall l <- m.Values ensures l in m'.Values {
      var r :| r in m && m[r] == l;
      assert m'[r] == l;
    }
    assert m'[right] == left;
    forall r <- m ensures m[r] in m.Values {
    }
  }

  lemma FlipEnds(edges: Edges, lefts: set<nat>, m: Matched, start: nat, parents: Parents,
                 depth: map<nat, nat>, D: set<nat>, right: nat)
    requires start !in lefts
    requires Flipping(edges, lefts, m, parents, depth, D, start, right)
    ensures Matching(edges, m[right := start]) && m[right := start].Values == lefts + {start}
  {
    var rest := m - {right};
    assert m[right := start] == rest[right := start];
    AddPair(rest, right, start);
  }

  lemma FlipContinues(edges: Edges, lefts: set<nat>, m: Matched, parents: Parents,
                      depth: map<nat, nat>, D: set<nat>, left: nat, right: nat)
    requires Flipping(edges, lefts, m, parents, depth, D, left, right)
    requires SearchTreeLink(edges, parents, depth, left)
    ensures var (up, r) := parents[left].value;
            Flipping(edges, lefts, m[right := left], parents, depth, D, up, r)
  {
    FlipUpdate(edges, lefts, m, parents, depth, D, left, right);
    var (up, r) := parents[left].value;
    var rest, m' := m - {right}, m[right := left];
    var rest' := m' - {r};
    assert r in rest && rest[r] == left;
    assert forall s <- rest' :: if s == right then rest'[s] == left else s != r && s in rest && rest'[s] == rest[s];
    assert rest'.Values == lefts by {
      forall l <- lefts ensures l in rest'.Values {
        if l == left {
          assert right in rest' && rest'[right] == left;
        } else {
          var s :| s in rest && rest[s] == l;
          assert s in rest' && rest'[s] == l;
        }
      }
      assert forall s <- rest :: rest[s] in rest.Values;
    }
  }

  // The state of a flip: still going on, or ended with the start matched.
  ghost predicate Flipped(edges: Edges, m0: Matched, m: Matched, start: nat, parents: Parents, depth: map<nat, nat>,
                          D: set<nat>, terminal: Option<(nat, nat)>)
  {
    match terminal
    case Some((left, right)) => Flipping(edges, m0.Values, m, parents, depth, D, left, right)
    case None => Matching(edges, m) && m.Values == m0.Values + {start} && Saturated(edges, m, D)
  }

  lemma FlipStep(edges: Edges, m0: Matched, m: Matched, start: nat, parents: Parents, depth: map<nat, nat>,
                 D: set<nat>, left: nat, right: nat)
    requires start !in m0.Values && SearchTree(edges, m0, start, parents, depth)
    requires Flipping(edges, m0.Values, m, parents, depth, D, left, right)
    ensures Flipped(edges, m0, m[right := left], start, parents, depth, D, parents[left])
    ensures parents[left].Some? ==> parents[left].value.0 in depth && depth[parents[left].value.0] < depth[left]
  {
    FlipUpdate(edges, m0.Values, m, parents, depth, D, left, right);
    if parents[left].Some? {
      assert TreeLink(edges, m0, parents, depth, left);
      FlipContinues(edges, m0.Values, m, parents, depth, D, left, right);
    } else {
      FlipEnds(edges, m0.Values, m, start, parents, depth, D, right);
    }
  }

  lemma FlipStarts(edges: Edges, m0: Matched, start: nat, parents: Parents, depth: map<nat, nat>, D: set<nat>,
                   end: (nat, nat))
    requires Matching(edges, m0) && start !in m0.Values && start < |edges|
    requires SearchTree(edges, m0, start, parents, depth) && EndsPath(edges, m0, parents, end)
    requires Saturated(edges, m0, D)
    ensures Flipped(edges, m0, m0, start, parents, depth, D, Some(end))
  {
    assert m0 - {end.1} == m0;
    forall x <- parents | parents[x].Some? ensures parents[x].value.1 in m0 && m0[parents[x].value.1] == x {
      assert TreeLink(edges, m0, parents, depth, x);
    }
  }

  method Augment(edges: Edges, m0: Matched, start: nat, parents: Parents, ghost depth: map<nat, nat>,
                 end: (nat, nat), ghost D: set<nat>)
    returns (m: Matched)
    requires Matching(edges, m0) && start !in m0.Values && start < |edges|
    requires SearchTree(edges, m0, start, parents, depth) && EndsPath(edges, m0, parents, end)
    requires Saturated(edges, m0, D)
    ensures Matching(edges, m) && m.Values == m0.Values + {start}
    ensures Saturated(edges, m, D)
  {
    m := m0;
    var terminal := Some(end);
    FlipStarts(edges, m0, start, parents, depth, D, end);
    while terminal.Some?
      invariant Flipped(edges, m0, m, start, parents, depth, D, terminal)
      decreases if terminal.Some? then depth[terminal.value.0] + 1 else 0
    {
      var (left, right) := terminal.value;
      FlipStep(edges, m0, m, start, parents, depth, D, left, right);
      m := m[right := left];
      terminal := parents[left];
    }
  }

  // ----- The matcher

  ghost predicate RowAgrees(row: seq<nat>, prediction: TimeRange, truth: seq<TimeRange>, threshold: real) {
    forall j: nat :: j in row <==> j < |truth| && Iou(prediction, truth[j]) >= threshold
  }

  ghost predicate EdgesAgree(edges: Edges, predictions: seq<TimeRange>, truth: seq<TimeRange>, threshold: real) {
    && |edges| == |predictions|
    && (forall i | 0 <= i < |edges| :: RowAgrees(edges[i], predictions[i], truth, threshold))
  }

  method BuildEdges(predictions: seq<TimeRange>, truth: seq<TimeRange>, threshold: real) returns (edges: Edges)
    ensures EdgesAgree(edges, predictions, truth, threshold)
  {
    edges := [];
    for i := 0 to |predictions|
      invariant EdgesAgree(edges, predictions[..i], truth, threshold)
    {
      var row: seq<nat> := [];
      for j := 0 to |truth|
        invariant forall k: nat :: k in row <==> k < j && Iou(predictions[i], truth[k]) >= threshold
      {
        if Iou(predictions[i], truth[j]) >= threshold {
          row := row + [j];
        }
      }
      assert RowAgrees(row, predictions[i], truth, threshold);
      edges := edges + [row];
    }
    assert predictions[..|predictions|] == predictions;
  }

  // The dictionary holds exactly the given (prediction, reference) pairs.
  ghost predicate Holds(m: Matched, pairs: set<(nat, nat)>) {
    && (forall r <- m :: (m[r], r) in pairs)
    && (forall p <- pairs :: p.1 in m && m[p.1] == p.0)
  }

  ghost predicate Before(p: (nat, nat), q: (nat, nat)) {
    p.0 < q.0 || (p.0 == q.0 && p.1 < q.1)
  }

  ghost predicate Ascending(pairs: seq<(nat, nat)>) {
    forall i, j | 0 <= i < j < |pairs| :: Before(pairs[i], pairs[j])
  }

  // The pairs of the dictionary in lexicographic order.
  method SortedPairs(m: Matched, lefts: nat, rights: nat) returns (pairs: seq<(nat, nat)>)
    requires forall r <- m :: r < rights && m[r] < lefts
    ensures Ascending(pairs)
    ensures Holds(m, set p | p in pairs)
  {
    pairs := [];
    for l := 0 to lefts
      invariant Ascending(pairs)
      invariant forall p <- pairs :: p.0 < l
      invariant forall p :: p in pairs <==> p.0 < l && p.1 in m && m[p.1] == p.0
    {
      for r := 0 to rights
        invariant Ascending(pairs)
        invariant forall p <- pairs :: p.0 < l || (p.0 == l && p.1 < r)
        invariant forall p :: p in pairs <==> (p.0 < l || (p.0 == l && p.1 < r)) && p.1 in m && m[p.1] == p.0
      {
        if r in m && m[r] == l {
          pairs := pairs + [(l, r)];
        }
      }
    }
  }

  lemma {:induction false} AscendingCardinality(pairs: seq<(nat, nat)>)
    requires Ascending(pairs)
    ensures |set p | p in pairs| == |pairs|
  {
    if pairs == [] {
    } else {
      var init, last := pairs[..|pairs| - 1], pairs[|pairs| - 1];
      AscendingCardinality(init);
      assert pairs == init + [last];
      assert last !in init;
      assert (set p | p in pairs) == (set p | p in init) + {last};
    }
  }

  lemma {:induction false} HoldsCardinality(m: Matched, pairs: set<(nat, nat)>)
    requires Holds(m, pairs)
    ensures |m| == |pairs|
  {
    if m.Keys == {} {
      assert pairs == {};
    } else {
      var r :| r in m;
      HoldsCardinality(m - {r}, pairs - {(m[r], r)});
    }
  }

  ghost predicate DistinctRights(pairs: set<(nat, nat)>) {
    forall p, q | p in pairs && q in pairs && p.1 == q.1 :: p == q
  }

  lemma {:induction false} PairsAsMap(pairs: set<(nat, nat)>) returns (m: Matched)
    requires DistinctRights(pairs)
    ensures Holds(m, pairs)
  {
    if pairs == {} {
      m := map[];
    } else {
      var p :| p in pairs;
      var rest := PairsAsMap(pairs - {p});
      m := rest[p.1 := p.0];
    }
  }

  lemma OneToOneAsMatched(edges: Edges, predictions: seq<TimeRange>, truth: seq<TimeRange>, threshold: real,
                          m: Matched, pairs: set<(nat, nat)>)
    requires EdgesAgree(edges, predictions, truth, threshold) && Holds(m, pairs)
    ensures OneToOne(pairs, predictions, truth, threshold) <==> Matching(edges, m)
  {
    if OneToOne(pairs, predictions, truth, threshold) {
      forall r <- m ensures m[r] < |edges| && r in edges[m[r]] {
        assert (m[r], r) in pairs;
        assert RowAgrees(edges[m[r]], predictions[m[r]], truth, threshold);
      }
      forall r, s | r in m && s in m && m[r] == m[s] ensures r == s {
        assert (m[r], r) in pairs && (m[s], s) in pairs;
      }
    }
    if Matching(edges, m) {
      forall p <- pairs
        ensures p.0 < |predictions| && p.1 < |truth| && Iou(predictions[p.0], truth[p.1]) >= threshold
      {
        assert RowAgrees(edges[p.0], predictions[p.0], truth, threshold);
      }
    }
  }

  // The certificate turned into a statement about every one-to-one set of pairs.
  lemma MaximumCertified(edges: Edges, predictions: seq<TimeRange>, truth: seq<TimeRange>, threshold: real,
                         m: Matched, D: set<nat>, other: set<(nat, nat)>)
    requires EdgesAgree(edges, predictions, truth, threshold)
    requires Matching(edges, m) && Saturated(edges, m, D)
    requires Decided(m, D, |edges|)
    requires OneToOne(other, predictions, truth, threshold)
    ensures |other| <= |m|
  {
    var asMatched := PairsAsMap(other);
    OneToOneAsMatched(edges, predictions, truth, threshold, asMatched, other);
    HoldsCardinality(asMatched, other);
    DeficiencyBound(edges, m, D, asMatched);
  }

  // One search per prediction; D collects every prediction that a failed search discovered.
  method MaximumMatching(edges: Edges) returns (matched: Matched, ghost D: set<nat>)
    ensures Matching(edges, matched) && Saturated(edges, matched, D)
    ensures Decided(matched, D, |edges|)
  {
    matched, D := map[], {};
    for start := 0 to |edges|
      invariant Matching(edges, matched) && Saturated(edges, matched, D)
      invariant Decided(matched, D, start)
    {
      var parents, terminal, depth := FindAugmentingPath(edges, matched, start);
      if terminal.Some? {
        matched := Augment(edges, matched, start, parents, depth, terminal.value, D);
      } else {
        D := D + parents.Keys;
      }
    }
  }

  // The result lists, in order, a one-to-one set of pairs that reach the
  // threshold, and no such set is larger.
  method MatchIntervals(predictions: seq<TimeRange>, truth: seq<TimeRange>, threshold: real)
    returns (pairs: seq<(nat, nat)>)
    ensures Ascending(pairs)
    ensures OneToOne((set p | p in pairs), predictions, truth, threshold)
    ensures forall other :: OneToOne(other, predictions, truth, threshold) ==> |other| <= |pairs|
  {
    var edges := BuildEdges(predictions, truth, threshold);
    var matched, D := MaximumMatching(edges);
    pairs := SortedPairs(matched, |predictions|, |truth|);
    AscendingCardinality(pairs);
    ghost var result := set p | p in pairs;
    HoldsCardinality(matched, result);
    OneToOneAsMatched(edges, predictions, truth, threshold, matched, result);
    forall other | OneToOne(other, predictions, truth, threshold)
      ensures |other| <= |pairs|
    {
      MaximumCertified(edges, predictions, truth, threshold, matched, D, other);
    }
  }
}
