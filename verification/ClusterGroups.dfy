// Union-find clustering of a similarity matrix
// (scripts/benchmark_cpu_kernels.py).

module ClusterGroups {

  type Matrix = seq<seq<real>>

  // ----- The graph: i < j are linked when matrix[i][j] reaches the threshold

  // Every entry above the diagonal exists.
  ghost predicate UpperTriangle(matrix: Matrix) {
    forall i | 0 <= i < |matrix| - 1 :: |matrix[i]| >= |matrix|
  }

  ghost predicate Linked(matrix: Matrix, threshold: real, x: nat, y: nat)
    requires UpperTriangle(matrix)
  {
    && x < |matrix| && y < |matrix|
    && (x < y ==> matrix[x][y] >= threshold)
    && (y < x ==> matrix[y][x] >= threshold)
  }

  ghost predicate Walk(matrix: Matrix, threshold: real, p: seq<nat>)
    requires UpperTriangle(matrix)
  {
    && p != []
    && (forall k | 0 <= k < |p| :: p[k] < |matrix|)
    && (forall k | 0 < k < |p| :: Linked(matrix, threshold, p[k - 1], p[k]))
  }

  ghost predicate WalkBetween(matrix: Matrix, threshold: real, p: seq<nat>, x: nat, y: nat)
    requires UpperTriangle(matrix)
  {
    Walk(matrix, threshold, p) && p[0] == x && p[|p| - 1] == y
  }

  ghost predicate Connected(matrix: Matrix, threshold: real, x: nat, y: nat)
    requires UpperTriangle(matrix)
  {
    exists p :: WalkBetween(matrix, threshold, p, x, y)
  }

  lemma ConnectedReflexive(matrix: Matrix, threshold: real, x: nat)
    requires UpperTriangle(matrix) && x < |matrix|
    ensures Connected(matrix, threshold, x, x)
  {
    assert WalkBetween(matrix, threshold, [x], x, x);
  }

  lemma ConnectedSymmetric(matrix: Matrix, threshold: real, x: nat, y: nat)
    requires UpperTriangle(matrix) && Connected(matrix, threshold, x, y)
    ensures Connected(matrix, threshold, y, x)
  {
    var p :| WalkBetween(matrix, threshold, p, x, y);
    var q := seq(|p|, k requires 0 <= k < |p| => p[|p| - 1 - k]);
    forall k | 0 < k < |q| ensures Linked(matrix, threshold, q[k - 1], q[k]) {
      assert Linked(matrix, threshold, p[|p| - 1 - k], p[|p| - k]);
    }
    assert WalkBetween(matrix, threshold, q, y, x);
  }

  lemma ConnectedTransitive(matrix: Matrix, threshold: real, x: nat, y: nat, z: nat)
    requires UpperTriangle(matrix)
    requires Connected(matrix, threshold, x, y) && Connected(matrix, threshold, y, z)
    ensures Connected(matrix, threshold, x, z)
  {
    var p :| WalkBetween(matrix, threshold, p, x, y);
    var q :| WalkBetween(matrix, threshold, q, y, z);
    var joined := p + q;
    assert Linked(matrix, threshold, y, y);
    forall k | 0 < k < |joined| ensures Linked(matrix, threshold, joined[k - 1], joined[k]) {
      if k < |p| {
        assert Linked(matrix, threshold, p[k - 1], p[k]);
      } else if k > |p| {
        assert Linked(matrix, threshold, q[k - |p| - 1], q[k - |p|]);
      }
    }
    assert WalkBetween(matrix, threshold, joined, x, z);
  }

  // ----- The union-find forest

  // `rep` names the root of every element and `rank` decreases along every link,
  // so the parent links form a forest.
  ghost predicate Forest(parent: seq<nat>, rep: seq<nat>, rank: seq<nat>) {
    && |parent| == |rep| == |rank|
    && (forall x {:trigger parent[x]} | 0 <= x < |parent| ::
          && parent[x] < |parent| && rep[x] < |parent|
          && (parent[x] == x <==> rep[x] == x)
          && (parent[x] != x ==> rank[parent[x]] < rank[x]))
    && (forall x {:trigger parent[x]} | 0 <= x < |parent| :: rep[parent[x]] == rep[x] && rep[rep[x]] == rep[x])
  }

  ghost function Ascend(parent: seq<nat>, x: nat, steps: nat): nat
    decreases steps
  {
    if steps == 0 || x >= |parent| then x else Ascend(parent, parent[x], steps - 1)
  }

  // What a forest says of one element.
  lemma ForestAt(parent: seq<nat>, rep: seq<nat>, rank: seq<nat>, x: nat)
    requires Forest(parent, rep, rank) && x < |parent|
    ensures parent[x] < |parent| && rep[x] < |parent| && rep[rep[x]] == rep[x]
    ensures parent[rep[x]] == rep[x] && rep[parent[x]] == rep[x]
    ensures parent[x] != x ==> rank[parent[x]] < rank[x]
  {
    var p := parent[x];
    assert parent[rep[x]] == rep[x];
  }

  // The root of x: the fixed point that its parent links lead to.
  ghost predicate LeadsTo(parent: seq<nat>, x: nat, root: nat) {
    root < |parent| && parent[root] == root && exists steps: nat :: Ascend(parent, x, steps) == root
  }

  lemma {:induction false} RepIsRoot(parent: seq<nat>, rep: seq<nat>, rank: seq<nat>, x: nat)
    requires Forest(parent, rep, rank) && x < |parent|
    ensures LeadsTo(parent, x, rep[x])
    decreases rank[x]
  {
    if parent[x] == x {
      assert Ascend(parent, x, 0) == x;
    } else {
      RepIsRoot(parent, rep, rank, parent[x]);
      var steps: nat :| Ascend(parent, parent[x], steps) == rep[x];
      assert Ascend(parent, x, steps + 1) == rep[x];
    }
  }

  lemma RootIsUnique(parent: seq<nat>, rep: seq<nat>, rank: seq<nat>, x: nat, root: nat)
    requires Forest(parent, rep, rank) && x < |parent| && LeadsTo(parent, x, root)
    ensures root == rep[x]
  {
    var steps: nat :| Ascend(parent, x, steps) == root;
    AscendKeepsRep(parent, rep, rank, x, steps);
  }

  lemma {:induction false} AscendKeepsRep(parent: seq<nat>, rep: seq<nat>, rank: seq<nat>, x: nat, steps: nat)
    requires Forest(parent, rep, rank) && x < |parent|
    ensures var y := Ascend(parent, x, steps); y < |parent| && rep[y] == rep[x]
    decreases steps
  {
    if steps > 0 {
      AscendKeepsRep(parent, rep, rank, parent[x], steps - 1);
    }
  }

  // Two forests with the same representatives have the same roots.
  lemma SameRoots(parent: seq<nat>, parent': seq<nat>, rep: seq<nat>, rank: seq<nat>, x: nat, root: nat)
    requires Forest(parent, rep, rank) && Forest(parent', rep, rank) && x < |parent|
    ensures LeadsTo(parent, x, root) <==> LeadsTo(parent', x, root)
  {
    RepIsRoot(parent, rep, rank, x);
    RepIsRoot(parent', rep, rank, x);
    if LeadsTo(parent, x, root) {
      RootIsUnique(parent, rep, rank, x, root);
    }
    if LeadsTo(parent', x, root) {
      RootIsUnique(parent', rep, rank, x, root);
    }
  }

  lemma HalveKeepsForest(parent: seq<nat>, rep: seq<nat>, rank: seq<nat>, x: nat)
    requires Forest(parent, rep, rank) && x < |parent| && parent[x] != x
    ensures Forest(parent[x := parent[parent[x]]], rep, rank)
    ensures rank[parent[parent[x]]] < rank[x] && rep[parent[parent[x]]] == rep[x]
  {
    var y := parent[x];
    var parent' := parent[x := parent[y]];
    ForestAt(parent, rep, rank, x);
    ForestAt(parent, rep, rank, y);
    assert rank[parent[y]] < rank[x];
    forall z | 0 <= z < |parent|
      ensures (parent'[z] == z <==> rep[z] == z) && rep[parent'[z]] == rep[z]
      ensures parent'[z] != z ==> rank[parent'[z]] < rank[z]
    {
      ForestAt(parent, rep, rank, z);
    }
  }

  // Path halving: returns the root, terminates because ranks decrease, and
  // keeps the root of every element.
  method Find(parent: array<nat>, x0: nat, ghost rep: seq<nat>, ghost rank: seq<nat>) returns (x: nat)
    requires Forest(parent[..], rep, rank) && x0 < parent.Length
    modifies parent
    ensures Forest(parent[..], rep, rank)
    ensures x == rep[x0] && LeadsTo(old(parent[..]), x0, x)
    ensures forall y: nat, r: nat | y < parent.Length ::
              LeadsTo(old(parent[..]), y, r) <==> LeadsTo(parent[..], y, r)
  {
    x := x0;
    while parent[x] != x
      invariant Forest(parent[..], rep, rank)
      invariant x < parent.Length && rep[x] == rep[x0]
      decreases rank[x]
    {
      HalveKeepsForest(parent[..], rep, rank, x);
      ghost var halved := parent[..][x := parent[parent[x]]];
      parent[x] := parent[parent[x]];
      assert parent[..] == halved;
      x := parent[x];
    }
    RepIsRoot(old(parent[..]), rep, rank, x0);
    forall y: nat, r: nat | y < parent.Length
      ensures LeadsTo(old(parent[..]), y, r) <==> LeadsTo(parent[..], y, r)
    {
      SameRoots(old(parent[..]), parent[..], rep, rank, y, r);
    }
  }

  // The classes after the roots px and py are joined.
  ghost function Joined(rep: seq<nat>, px: nat, py: nat): (joined: seq<nat>)
    ensures |joined| == |rep|
  {
    seq(|rep|, k requires 0 <= k < |rep| => if rep[k] == py then px else rep[k])
  }

  lemma JoinKeepsForest(parent: seq<nat>, rep: seq<nat>, rank: seq<nat>, px: nat, py: nat) returns (rank': seq<nat>)
    requires Forest(parent, rep, rank) && px < |parent| && py < |parent|
    requires rep[px] == px && rep[py] == py && px != py
    ensures Forest(parent[py := px], Joined(rep, px, py), rank')
  {
    rank' := seq(|rank|, k requires 0 <= k < |rank| => if rep[k] == py then rank[k] + rank[px] + 1 else rank[k]);
    var (parent', joined) := (parent[py := px], Joined(rep, px, py));
    ForestAt(parent, rep, rank, px);
    forall x | 0 <= x < |parent|
      ensures (parent'[x] == x <==> joined[x] == x) && joined[parent'[x]] == joined[x] && joined[joined[x]] == joined[x]
      ensures parent'[x] != x ==> rank'[parent'[x]] < rank'[x]
    {
      ForestAt(parent, rep, rank, x);
    }
  }

  method Union(parent: array<nat>, x: nat, y: nat, ghost rep: seq<nat>, ghost rank: seq<nat>)
    returns (ghost rank': seq<nat>)
    requires Forest(parent[..], rep, rank) && x < parent.Length && y < parent.Length
    modifies parent
    ensures Forest(parent[..], Joined(rep, rep[x], rep[y]), rank')
  {
    var px := Find(parent, x, rep, rank);
    var py := Find(parent, y, rep, rank);
    if px != py {
      rank' := JoinKeepsForest(parent[..], rep, rank, px, py);
      parent[py] := px;
    } else {
      rank' := rank;
      assert Joined(rep, px, py) == rep;
    }
  }

  // ----- Linking every pair that reaches the threshold

  ghost predicate Sound(matrix: Matrix, threshold: real, rep: seq<nat>)
    requires UpperTriangle(matrix)
  {
    && |rep| == |matrix|
    && (forall x: nat, y: nat | x < |rep| && y < |rep| && rep[x] == rep[y] :: Connected(matrix, threshold, x, y))
  }

  // Every link (x, y) with x < y that precedes (i, j) in row order is inside one class.
  ghost predicate Merged(matrix: Matrix, threshold: real, rep: seq<nat>, i: nat, j: nat)
    requires UpperTriangle(matrix) && |rep| == |matrix|
  {
    forall x: nat, y: nat | x < y < |rep| && (x < i || (x == i && y < j)) && Linked(matrix, threshold, x, y) ::
      rep[x] == rep[y]
  }

  lemma JoinIsSound(matrix: Matrix, threshold: real, rep: seq<nat>, i: nat, j: nat)
    requires UpperTriangle(matrix) && Sound(matrix, threshold, rep)
    requires i < j < |rep| && Linked(matrix, threshold, i, j)
    ensures Sound(matrix, threshold, Joined(rep, rep[i], rep[j]))
  {
    var joined := Joined(rep, rep[i], rep[j]);
    assert WalkBetween(matrix, threshold, [i, j], i, j);
    forall x: nat, y: nat | x < |rep| && y < |rep| && joined[x] == joined[y]
      ensures Connected(matrix, threshold, x, y)
    {
      if rep[x] != rep[y] {
        ConnectedSymmetric(matrix, threshold, i, j);
        var (k, l) := if rep[x] == rep[j] then (j, i) else (i, j);
        ConnectedTransitive(matrix, threshold, x, k, l);
        ConnectedTransitive(matrix, threshold, x, l, y);
      }
    }
  }

  lemma {:induction false} WalkStaysInClass(matrix: Matrix, threshold: real, rep: seq<nat>, p: seq<nat>)
    requires UpperTriangle(matrix) && |rep| == |matrix| && Merged(matrix, threshold, rep, |matrix|, 0)
    requires Walk(matrix, threshold, p)
    ensures rep[p[0]] == rep[p[|p| - 1]]
  {
    if |p| > 1 {
      assert Linked(matrix, threshold, p[0], p[1]);
      assert Linked(matrix, threshold, p[1], p[0]);
      assert forall k | 0 < k < |p[1..]| :: Linked(matrix, threshold, p[1..][k - 1], p[1..][k]) by {
        forall k | 0 < k < |p[1..]| ensures Linked(matrix, threshold, p[1..][k - 1], p[1..][k]) {
          assert Linked(matrix, threshold, p[k], p[k + 1]);
        }
      }
      WalkStaysInClass(matrix, threshold, rep, p[1..]);
    }
  }

  // The classes of rep are the connected components.
  ghost predicate Components(matrix: Matrix, threshold: real, rep: seq<nat>)
    requires UpperTriangle(matrix)
  {
    && |rep| == |matrix|
    && (forall x: nat, y: nat | x < |rep| && y < |rep| ::
          rep[x] == rep[y] <==> Connected(matrix, threshold, x, y))
  }

  lemma MergedAndSound(matrix: Matrix, threshold: real, rep: seq<nat>)
    requires UpperTriangle(matrix) && Sound(matrix, threshold, rep)
    requires Merged(matrix, threshold, rep, |matrix|, 0)
    ensures Components(matrix, threshold, rep)
  {
    forall x: nat, y: nat | x < |rep| && y < |rep| && Connected(matrix, threshold, x, y)
      ensures rep[x] == rep[y]
    {
      var p :| WalkBetween(matrix, threshold, p, x, y);
      WalkStaysInClass(matrix, threshold, rep, p);
    }
  }

  lemma InitiallySound(matrix: Matrix, threshold: real, rep: seq<nat>)
    requires UpperTriangle(matrix) && |rep| == |matrix| && forall k | 0 <= k < |rep| :: rep[k] == k
    ensures Sound(matrix, threshold, rep)
  {
    forall x: nat | x < |rep| ensures Connected(matrix, threshold, x, x) {
      ConnectedReflexive(matrix, threshold, x);
    }
  }

  ghost predicate LinkState(parent: seq<nat>, rep: seq<nat>, rank: seq<nat>,
                            matrix: Matrix, threshold: real, i: nat, j: nat)
    requires UpperTriangle(matrix)
  {
    && Forest(parent, rep, rank)
    && Sound(matrix, threshold, rep) && Merged(matrix, threshold, rep, i, j)
  }

  lemma LinkStart(matrix: Matrix, threshold: real, ids: seq<nat>, zeros: seq<nat>)
    requires UpperTriangle(matrix) && |ids| == |zeros| == |matrix|
    requires forall k | 0 <= k < |ids| :: ids[k] == k
    ensures LinkState(ids, ids, zeros, matrix, threshold, 0, 0)
  {
    InitiallySound(matrix, threshold, ids);
  }

  // A pair below the threshold, or the end of a row, changes nothing.
  lemma LinkSkip(parent: seq<nat>, rep: seq<nat>, rank: seq<nat>,
                 matrix: Matrix, threshold: real, i: nat, j: nat)
    requires UpperTriangle(matrix) && LinkState(parent, rep, rank, matrix, threshold, i, j)
    ensures j <= i ==> LinkState(parent, rep, rank, matrix, threshold, i, i + 1)
    ensures j < |matrix| && !Linked(matrix, threshold, i, j) ==>
              LinkState(parent, rep, rank, matrix, threshold, i, j + 1)
    ensures j >= |matrix| ==> LinkState(parent, rep, rank, matrix, threshold, i + 1, 0)
  {
  }

  method LinkRow(matrix: Matrix, threshold: real, i: nat, parent: array<nat>, ghost rep0: seq<nat>, ghost rank0: seq<nat>)
    returns (ghost rep: seq<nat>, ghost rank: seq<nat>)
    requires UpperTriangle(matrix) && i < |matrix| == parent.Length
    requires LinkState(parent[..], rep0, rank0, matrix, threshold, i, 0)
    modifies parent
    ensures LinkState(parent[..], rep, rank, matrix, threshold, i + 1, 0)
  {
    rep, rank := rep0, rank0;
    LinkSkip(parent[..], rep, rank, matrix, threshold, i, 0);
    for j := i + 1 to |matrix|
      invariant LinkState(parent[..], rep, rank, matrix, threshold, i, j)
    {
      if matrix[i][j] >= threshold {
        JoinIsSound(matrix, threshold, rep, i, j);
        rank := Union(parent, i, j, rep, rank);
        rep := Joined(rep, rep[i], rep[j]);
      } else {
        LinkSkip(parent[..], rep, rank, matrix, threshold, i, j);
      }
    }
    LinkSkip(parent[..], rep, rank, matrix, threshold, i, |matrix|);
  }

  method LinkPairs(matrix: Matrix, threshold: real)
    returns (parent: array<nat>, ghost rep: seq<nat>, ghost rank: seq<nat>)
    requires UpperTriangle(matrix)
    ensures fresh(parent) && parent.Length == |matrix|
    ensures Forest(parent[..], rep, rank) && Components(matrix, threshold, rep)
  {
    var n := |matrix|;
    parent := new nat[n](k => k);
    rep := parent[..];
    rank := seq(n, k requires 0 <= k < n => 0);
    LinkStart(matrix, threshold, rep, rank);
    for i := 0 to n
      invariant LinkState(parent[..], rep, rank, matrix, threshold, i, 0)
    {
      rep, rank := LinkRow(matrix, threshold, i, parent, rep, rank);
    }
    MergedAndSound(matrix, threshold, rep);
  }

  // ----- Collecting the classes

  // The elements below k whose root is the given one, in ascending order.
  ghost function Members(rep: seq<nat>, root: nat, k: nat): seq<nat>
    requires k <= |rep|
  {
    if k == 0 then []
    else if rep[k - 1] == root then Members(rep, root, k - 1) + [k - 1]
    else Members(rep, root, k - 1)
  }

  ghost predicate Ascending(s: seq<nat>) {
    forall i, j | 0 <= i < j < |s| :: s[i] < s[j]
  }

  lemma {:induction false} MembersExact(rep: seq<nat>, root: nat, k: nat)
    requires k <= |rep|
    ensures var members := Members(rep, root, k);
            && Ascending(members)
            && (forall i | 0 <= i < |members| :: members[i] < k && rep[members[i]] == root)
            && (forall x: nat | x < k && rep[x] == root :: x in members)
  {
    if k > 0 {
      MembersExact(rep, root, k - 1);
    }
  }

  lemma MembersComeFrom(rep: seq<nat>, root: nat, k: nat)
    requires k <= |rep| && Members(rep, root, k) != []
    ensures root in rep[..k] && Members(rep, root, k)[0] < k
  {
    MembersExact(rep, root, k);
    var x := Members(rep, root, k)[0];
    assert rep[..k][x] == root;
  }

  ghost function RootsOf(rep: seq<nat>, k: nat): set<nat>
    requires k <= |rep|
  {
    set r | r in rep[..k]
  }

  // The dictionary holds the classes of the first k elements.
  ghost predicate Classified(clusters: map<nat, seq<nat>>, rep: seq<nat>, k: nat)
    requires k <= |rep|
  {
    && clusters.Keys == RootsOf(rep, k)
    && (forall r <- clusters :: clusters[r] != [] && clusters[r] == Members(rep, r, k))
  }

  // The roots are the keys of the dictionary, in order of their first members.
  ghost predicate InsertionOrder(roots: seq<nat>, clusters: map<nat, seq<nat>>) {
    && (forall r <- clusters :: r in roots && clusters[r] != [])
    && (forall i | 0 <= i < |roots| :: roots[i] in clusters)
    && (forall i, j | 0 <= i < j < |roots| :: clusters[roots[i]][0] < clusters[roots[j]][0])
  }

  ghost predicate Collected(roots: seq<nat>, clusters: map<nat, seq<nat>>, rep: seq<nat>, k: nat)
    requires k <= |rep|
  {
    Classified(clusters, rep, k) && InsertionOrder(roots, clusters)
  }

  lemma ClassifyNext(clusters: map<nat, seq<nat>>, rep: seq<nat>, k: nat)
    requires k < |rep| && Classified(clusters, rep, k)
    ensures rep[k] !in clusters ==> Members(rep, rep[k], k) == []
    ensures Classified(clusters[rep[k] := Members(rep, rep[k], k) + [k]], rep, k + 1)
  {
    var root := rep[k];
    var clusters' := clusters[root := Members(rep, root, k) + [k]];
    ClassesNext(rep, k);
    if Members(rep, root, k) != [] {
      MembersComeFrom(rep, root, k);
    }
    forall r <- clusters' ensures clusters'[r] != [] && clusters'[r] == Members(rep, r, k + 1) {
      assert r != root ==> clusters[r] == Members(rep, r, k);
    }
  }

  lemma ClassesNext(rep: seq<nat>, k: nat)
    requires k < |rep|
    ensures RootsOf(rep, k + 1) == RootsOf(rep, k) + {rep[k]}
  {
    assert rep[..k + 1] == rep[..k] + [rep[k]];
  }

  // Appending k to the list of its root, which is opened when it is new.
  ghost predicate CollectStep(roots: seq<nat>, clusters: map<nat, seq<nat>>, roots': seq<nat>,
                              clusters': map<nat, seq<nat>>, root: nat, k: nat)
  {
    if root in clusters then
      roots' == roots && clusters' == clusters[root := clusters[root] + [k]]
    else
      roots' == roots + [root] && clusters' == clusters[root := [k]]
  }

  lemma CollectNext(roots: seq<nat>, clusters: map<nat, seq<nat>>, roots': seq<nat>,
                    clusters': map<nat, seq<nat>>, rep: seq<nat>, k: nat)
    requires k < |rep| && Collected(roots, clusters, rep, k)
    requires CollectStep(roots, clusters, roots', clusters', rep[k], k)
    ensures Collected(roots', clusters', rep, k + 1)
  {
    ClassifyNext(clusters, rep, k);
    if rep[k] in clusters {
    } else {
      forall r <- clusters ensures clusters[r][0] < k {
        MembersComeFrom(rep, r, k);
      }
      assert Members(rep, rep[k], k) + [k] == [k];
    }
  }

  method AppendMember(roots: seq<nat>, clusters: map<nat, seq<nat>>, ghost rep: seq<nat>, root: nat, k: nat)
    returns (roots': seq<nat>, clusters': map<nat, seq<nat>>)
    requires k < |rep| && root == rep[k] && Collected(roots, clusters, rep, k)
    ensures Collected(roots', clusters', rep, k + 1)
  {
    roots', clusters' := roots, clusters;
    if root !in clusters {
      roots', clusters' := roots + [root], clusters[root := []];
    }
    clusters' := clusters'[root := clusters'[root] + [k]];
    assert CollectStep(roots, clusters, roots', clusters', root, k) by {
      assert [] + [k] == [k];
    }
    CollectNext(roots, clusters, roots', clusters', rep, k);
  }

  method CollectClusters(parent: array<nat>, ghost rep: seq<nat>, ghost rank: seq<nat>)
    returns (roots: seq<nat>, clusters: map<nat, seq<nat>>)
    requires Forest(parent[..], rep, rank)
    modifies parent
    ensures Forest(parent[..], rep, rank)
    ensures Collected(roots, clusters, rep, |rep|)
  {
    roots, clusters := [], map[];
    for i := 0 to parent.Length
      invariant Forest(parent[..], rep, rank)
      invariant Collected(roots, clusters, rep, i)
    {
      var root := Find(parent, i, rep, rank);
      roots, clusters := AppendMember(roots, clusters, rep, root, i);
    }
  }

  // ----- The mean over all pairs of a class

  ghost predicate IndexesTriangle(matrix: Matrix, s: seq<nat>) {
    UpperTriangle(matrix) && Ascending(s) && forall k | 0 <= k < |s| :: s[k] < |matrix|
  }

  // Sum of matrix[s[p]][s[k]] for p < k < q.
  ghost function RowTotal(matrix: Matrix, s: seq<nat>, p: nat, q: nat): real
    requires IndexesTriangle(matrix, s) && p < q <= |s|
  {
    if q == p + 1 then 0.0 else RowTotal(matrix, s, p, q - 1) + matrix[s[p]][s[q - 1]]
  }

  // Sum over the first p members of their similarity to every later member.
  ghost function PairTotal(matrix: Matrix, s: seq<nat>, p: nat): real
    requires IndexesTriangle(matrix, s) && p <= |s|
  {
    if p == 0 then 0.0 else PairTotal(matrix, s, p - 1) + RowTotal(matrix, s, p - 1, |s|)
  }

  // mean times the number of pairs is the sum over all pairs.
  ghost predicate IsMean(matrix: Matrix, s: seq<nat>, mean: real)
    requires IndexesTriangle(matrix, s)
  {
    mean * ((|s| * (|s| - 1) / 2) as real) == PairTotal(matrix, s, |s|)
  }

  // The number of pairs that start at one of the first p of m members.
  ghost function PairsFrom(m: nat, p: nat): nat
    requires p <= m
  {
    if p == 0 then 0 else PairsFrom(m, p - 1) + m - p
  }

  lemma {:induction false} PairsFromClosed(m: nat, p: nat)
    requires p <= m
    ensures 2 * PairsFrom(m, p) == p * (2 * m - p - 1)
  {
    if p > 0 {
      PairsFromClosed(m, p - 1);
    }
  }

  lemma PairCount(m: nat, count: nat)
    requires m >= 2 && count == PairsFrom(m, m)
    ensures count == m * (m - 1) / 2 && count > 0
  {
    PairsFromClosed(m, m);
    assert m * (m - 1) >= 2;
  }

  method MeanSimilarity(matrix: Matrix, indices: seq<nat>) returns (mean: real)
    requires IndexesTriangle(matrix, indices) && |indices| >= 2
    ensures IsMean(matrix, indices, mean)
  {
    var total, count := 0.0, 0;
    var m := |indices|;
    for p := 0 to m
      invariant total == PairTotal(matrix, indices, p)
      invariant count == PairsFrom(m, p)
    {
      var count0, total0 := count, total;
      for q := 0 to m
        invariant q <= p ==> total == total0 && count == count0
        invariant q > p ==> total == total0 + RowTotal(matrix, indices, p, q) && count == count0 + q - p - 1
      {
        if indices[p] < indices[q] {
          total := total + matrix[indices[p]][indices[q]];
          count := count + 1;
        }
      }
    }
    PairCount(m, count);
    mean := total / count as real;
  }

  // ----- The clustering

  datatype Group = Group(root: nat, indices: seq<nat>, mean: real)

  // The members of the connected component of root, in ascending order.
  ghost predicate IsComponent(matrix: Matrix, threshold: real, root: nat, s: seq<nat>)
    requires UpperTriangle(matrix)
  {
    && IndexesTriangle(matrix, s) && root in s
    && (forall i | 0 <= i < |s| :: Connected(matrix, threshold, root, s[i]))
    && (forall x: nat | x < |matrix| && Connected(matrix, threshold, root, x) :: x in s)
  }

  // One connected component of two members or more, with the mean over its pairs.
  ghost predicate IsGroup(matrix: Matrix, threshold: real, g: Group)
    requires UpperTriangle(matrix)
  {
    IsComponent(matrix, threshold, g.root, g.indices) && |g.indices| >= 2 && IsMean(matrix, g.indices, g.mean)
  }

  ghost predicate AreGroups(matrix: Matrix, threshold: real, groups: seq<Group>)
    requires UpperTriangle(matrix)
  {
    forall i | 0 <= i < |groups| :: IsGroup(matrix, threshold, groups[i])
  }

  lemma ClassIsComponent(matrix: Matrix, threshold: real, parent: seq<nat>, rep: seq<nat>, rank: seq<nat>, root: nat)
    requires UpperTriangle(matrix) && Components(matrix, threshold, rep) && Forest(parent, rep, rank)
    requires Members(rep, root, |rep|) != []
    ensures IsComponent(matrix, threshold, root, Members(rep, root, |rep|))
  {
    var members := Members(rep, root, |rep|);
    MembersExact(rep, root, |rep|);
    ForestAt(parent, rep, rank, members[0]);
    assert rep[members[0]] == root;
  }

  // Listed in the order of their smallest member.
  ghost predicate InOrder(groups: seq<Group>) {
    forall i, j | 0 <= i < j < |groups| ::
      groups[i].indices != [] && groups[j].indices != [] && groups[i].indices[0] < groups[j].indices[0]
  }

  ghost predicate Listed(groups: seq<Group>, indices: seq<nat>) {
    exists g <- groups :: g.indices == indices
  }

  // The groups made from the first k classes.
  ghost predicate Tracks(groups: seq<Group>, roots: seq<nat>, clusters: map<nat, seq<nat>>, k: nat)
    requires k <= |roots| && forall r <- roots :: r in clusters
  {
    && (forall i | 0 <= i < |groups| :: exists r :: 0 <= r < k && groups[i].indices == clusters[roots[r]])
    && InOrder(groups)
    && (forall r | 0 <= r < k && |clusters[roots[r]]| >= 2 :: Listed(groups, clusters[roots[r]]))
  }

  lemma TrackGroup(groups: seq<Group>, roots: seq<nat>, clusters: map<nat, seq<nat>>, k: nat, g: Group)
    requires k < |roots| && InsertionOrder(roots, clusters) && (forall r <- roots :: r in clusters)
    requires Tracks(groups, roots, clusters, k) && g.indices == clusters[roots[k]]
    ensures Tracks(groups + [g], roots, clusters, k + 1)
  {
    forall r | 0 <= r < k + 1 && |clusters[roots[r]]| >= 2
      ensures Listed(groups + [g], clusters[roots[r]])
    {
    }
  }

  lemma ConnectedPairsListed(groups: seq<Group>, roots: seq<nat>, clusters: map<nat, seq<nat>>, rep: seq<nat>,
                             matrix: Matrix, threshold: real, x: nat, y: nat)
    requires UpperTriangle(matrix) && Collected(roots, clusters, rep, |rep|)
    requires Components(matrix, threshold, rep)
    requires Tracks(groups, roots, clusters, |roots|)
    requires x < |matrix| && y < |matrix| && x != y && Connected(matrix, threshold, x, y)
    ensures exists g <- groups :: x in g.indices && y in g.indices
  {
    var members := Members(rep, rep[x], |rep|);
    MembersExact(rep, rep[x], |rep|);
    assert x in members && y in members && rep[x] in rep[..|rep|];
    assert rep[x] in roots;
    var r :| 0 <= r < |roots| && roots[r] == rep[x];
    if |members| < 2 {
      assert false;
    }
    assert Listed(groups, clusters[roots[r]]);
  }

  method AppendGroup(groups: seq<Group>, roots: seq<nat>, clusters: map<nat, seq<nat>>, matrix: Matrix,
                     ghost threshold: real, ghost parent: seq<nat>, ghost rep: seq<nat>, ghost rank: seq<nat>, k: nat)
    returns (groups': seq<Group>)
    requires UpperTriangle(matrix) && Forest(parent, rep, rank) && Components(matrix, threshold, rep)
    requires k < |roots| && Collected(roots, clusters, rep, |rep|)
    requires Tracks(groups, roots, clusters, k) && AreGroups(matrix, threshold, groups)
    ensures Tracks(groups', roots, clusters, k + 1) && AreGroups(matrix, threshold, groups')
  {
    var root, indices := roots[k], clusters[roots[k]];
    if |indices| < 2 {
      return groups;
    }
    ClassIsComponent(matrix, threshold, parent, rep, rank, root);
    var mean := MeanSimilarity(matrix, indices);
    TrackGroup(groups, roots, clusters, k, Group(root, indices, mean));
    groups' := groups + [Group(root, indices, mean)];
  }

  // Every connected pair of distinct elements is inside a listed group, and the
  // groups are listed once each, in the order of their smallest member.
  method ClusterGroups(matrix: Matrix, threshold: real) returns (groups: seq<Group>)
    requires UpperTriangle(matrix)
    ensures AreGroups(matrix, threshold, groups)
    ensures InOrder(groups)
    ensures forall x: nat, y: nat | x < |matrix| && y < |matrix| && x != y && Connected(matrix, threshold, x, y) ::
              exists g <- groups :: x in g.indices && y in g.indices
  {
    var parent, rep, rank := LinkPairs(matrix, threshold);
    var roots, clusters := CollectClusters(parent, rep, rank);
    groups := [];
    ghost var links := parent[..];
    for k := 0 to |roots|
      invariant Tracks(groups, roots, clusters, k) && AreGroups(matrix, threshold, groups)
    {
      groups := AppendGroup(groups, roots, clusters, matrix, threshold, links, rep, rank, k);
    }
    forall x: nat, y: nat | x < |matrix| && y < |matrix| && x != y && Connected(matrix, threshold, x, y)
      ensures exists g <- groups :: x in g.indices && y in g.indices
    {
      ConnectedPairsListed(groups, roots, clusters, rep, matrix, threshold, x, y);
    }
  }
}
