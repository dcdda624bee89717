// The two-row edit distance of the CPU kernel benchmark
// (scripts/benchmark_cpu_kernels.py).

module EditDistance {
  import opened Wrappers

  // ----- Edit scripts

  datatype Edit = Keep | Substitute(c: char) | Insert(c: char) | Delete

  // Runs a script over the whole of a; None when it runs past either end.
  ghost function Apply(script: seq<Edit>, a: string): Option<string> {
    if script == [] then
      if a == "" then Some("") else None
    else
      var (init, last) := (script[..|script| - 1], script[|script| - 1]);
      if last.Insert? then
        Extend(Apply(init, a), [last.c])
      else if a == "" then
        None
      else
        var prefix := a[..|a| - 1];
        match last
        case Keep => Extend(Apply(init, prefix), [a[|a| - 1]])
        case Substitute(c) => Extend(Apply(init, prefix), [c])
        case Delete => Apply(init, prefix)
        case Insert(_) => None
  }

  ghost function Extend(result: Option<string>, s: string): Option<string> {
    if result.None? then None else Some(result.value + s)
  }

  ghost function Cost(script: seq<Edit>): nat {
    if script == [] then 0
    else Cost(script[..|script| - 1]) + if script[|script| - 1].Keep? then 0 else 1
  }

  // ----- The recurrence

  function Min(x: nat, y: nat): nat {
    if x <= y then x else y
  }

  function Distance(a: string, b: string): nat
    decreases |a| + |b|
  {
    if a == "" then |b|
    else if b == "" then |a|
    else
      var a', b' := a[..|a| - 1], b[..|b| - 1];
      Min(Min(Distance(a, b') + 1, Distance(a', b) + 1),
          Distance(a', b') + if a[|a| - 1] == b[|b| - 1] then 0 else 1)
  }

  lemma {:induction false} DistanceBoundsScripts(script: seq<Edit>, a: string, b: string)
    requires Apply(script, a) == Some(b)
    ensures Distance(a, b) <= Cost(script)
  {
    if script != [] {
      var init, last := script[..|script| - 1], script[|script| - 1];
      if last.Insert? {
        DistanceBoundsScripts(init, a, b[..|b| - 1]);
      } else if last.Delete? {
        DistanceBoundsScripts(init, a[..|a| - 1], b);
      } else {
        DistanceBoundsScripts(init, a[..|a| - 1], b[..|b| - 1]);
      }
    }
  }

  lemma {:induction false} BestScript(a: string, b: string) returns (script: seq<Edit>)
    ensures Apply(script, a) == Some(b) && Cost(script) == Distance(a, b)
    decreases |a| + |b|
  {
    if a == "" && b == "" {
      script := [];
    } else {
      var last: Edit;
      if b != "" && Distance(a, b) == Distance(a, b[..|b| - 1]) + 1 {
        script := BestScript(a, b[..|b| - 1]);
        last := Insert(b[|b| - 1]);
      } else if a != "" && Distance(a, b) == Distance(a[..|a| - 1], b) + 1 {
        script := BestScript(a[..|a| - 1], b);
        last := Delete;
      } else {
        script := BestScript(a[..|a| - 1], b[..|b| - 1]);
        last := if a[|a| - 1] == b[|b| - 1] then Keep else Substitute(b[|b| - 1]);
      }
      assert (script + [last])[..|script|] == script;
      script := script + [last];
      if b != "" {
        assert b == b[..|b| - 1] + [b[|b| - 1]];
      }
    }
  }

  lemma {:induction false} DistanceSymmetric(a: string, b: string)
    ensures Distance(a, b) == Distance(b, a)
    decreases |a| + |b|
  {
    if a != "" && b != "" {
      DistanceSymmetric(a, b[..|b| - 1]);
      DistanceSymmetric(a[..|a| - 1], b);
      DistanceSymmetric(a[..|a| - 1], b[..|b| - 1]);
    }
  }

  // ----- The loop

  // Row i of the table: distances from a prefix of a to every prefix of b.
  ghost predicate IsRow(row: seq<nat>, a: string, b: string) {
    |row| <= |b| + 1 && forall j | 0 <= j < |row| :: row[j] == Distance(a, b[..j])
  }

  // One more cell of row i + 1.
  lemma RowGrows(previous: seq<nat>, row: seq<nat>, a: string, i: nat, b: string, cell: nat)
    requires i < |a| && |previous| == |b| + 1 && 0 < |row| <= |b|
    requires IsRow(previous, a[..i], b) && IsRow(row, a[..i + 1], b)
    requires var (j, change) := (|row|, if a[i] != b[|row| - 1] then 1 else 0);
             cell == Min(Min(row[j - 1] + 1, previous[j] + 1), previous[j - 1] + change)
    ensures IsRow(row + [cell], a[..i + 1], b)
  {
    var (j, longer, column) := (|row|, a[..i + 1], b[..|row|]);
    assert longer[..|longer| - 1] == a[..i];
    assert column[..|column| - 1] == b[..j - 1];
    assert cell == Distance(longer, column);
  }

  method NextRow(previous: seq<nat>, a: string, i: nat, b: string) returns (row: seq<nat>)
    requires i < |a| && |previous| == |b| + 1 && IsRow(previous, a[..i], b)
    ensures |row| == |b| + 1 && IsRow(row, a[..i + 1], b)
  {
    row := [i + 1];
    for j := 1 to |b| + 1
      invariant |row| == j && IsRow(row, a[..i + 1], b)
    {
      var change := if a[i] != b[j - 1] then 1 else 0;
      var cell := Min(Min(row[j - 1] + 1, previous[j] + 1), previous[j - 1] + change);
      RowGrows(previous, row, a, i, b, cell);
      row := row + [cell];
    }
  }

  // The result is the cost of a cheapest script from a to b.
  method EditDistance(a0: string, b0: string) returns (distance: nat)
    ensures exists script :: Apply(script, a0) == Some(b0) && Cost(script) == distance
    ensures forall script :: Apply(script, a0) == Some(b0) ==> distance <= Cost(script)
    ensures distance == Distance(a0, b0) == Distance(b0, a0)
  {
    var a, b := a0, b0;
    if |a| < |b| {
      a, b := b, a;
    }
    DistanceSymmetric(a0, b0);
    if b == "" {
      distance := |a|;
    } else {
      var previous: seq<nat> := seq(|b| + 1, j requires 0 <= j <= |b| => j);
      for i := 0 to |a|
        invariant |previous| == |b| + 1 && IsRow(previous, a[..i], b)
      {
        previous := NextRow(previous, a, i, b);
      }
      assert a[..|a|] == a && b[..|b|] == b;
      distance := previous[|previous| - 1];
    }
    ghost var best := BestScript(a0, b0);
    forall script | Apply(script, a0) == Some(b0)
      ensures distance <= Cost(script)
    {
      DistanceBoundsScripts(script, a0, b0);
    }
  }
}
