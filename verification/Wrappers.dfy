// Small types and functions shared by the modules.

module Wrappers {

  datatype Option<+T> = None | Some(value: T)
}

module Reals {

  function Max(a: real, b: real): real {
    if a >= b then a else b
  }

  function Min(a: real, b: real): real {
    if a <= b then a else b
  }
}

// Insertion into a sorted sequence; x goes in front of the first element that it precedes.
module Sorting {

  function Insert<T>(x: T, s: seq<T>, precedes: (T, T) -> bool): seq<T> {
    if |s| == 0 || precedes(x, s[0]) then [x] + s else [s[0]] + Insert(x, s[1..], precedes)
  }

  ghost predicate SortedBy<T(!new)>(s: seq<T>, upTo: (T, T) -> bool) {
    forall i, j | 0 <= i < j < |s| :: upTo(s[i], s[j])
  }

  // The order that is kept is one that `precedes` decides.
  ghost predicate Decides<T(!new)>(precedes: (T, T) -> bool, upTo: (T, T) -> bool) {
    && (forall a, b :: if precedes(a, b) then upTo(a, b) else upTo(b, a))
    && (forall a, b, c | upTo(a, b) && upTo(b, c) :: upTo(a, c))
  }

  lemma {:induction false} InsertAdds<T>(x: T, s: seq<T>, precedes: (T, T) -> bool)
    ensures multiset(Insert(x, s, precedes)) == multiset(s) + multiset{x}
  {
    if |s| > 0 && !precedes(x, s[0]) {
      InsertAdds(x, s[1..], precedes);
      assert s == [s[0]] + s[1..];
    }
  }

  lemma {:induction false} InsertSorts<T(!new)>(x: T, s: seq<T>, precedes: (T, T) -> bool, upTo: (T, T) -> bool)
    requires SortedBy(s, upTo) && Decides(precedes, upTo)
    ensures SortedBy(Insert(x, s, precedes), upTo)
    ensures |s| > 0 && !precedes(x, s[0]) ==>
              forall i | 0 <= i < |Insert(x, s, precedes)| :: i > 0 ==> upTo(s[0], Insert(x, s, precedes)[i])
  {
    if |s| > 0 {
      if precedes(x, s[0]) {
        forall j | 0 <= j < |s| ensures upTo(x, s[j]) {
          if j > 0 {
            assert upTo(s[0], s[j]);
          }
        }
      } else {
        InsertSorts(x, s[1..], precedes, upTo);
        var rest := Insert(x, s[1..], precedes);
        forall j | 0 <= j < |rest| ensures upTo(s[0], rest[j]) {
          InsertedFrom(x, s[1..], precedes, j);
          if rest[j] != x {
            var k :| 0 <= k < |s[1..]| && s[1..][k] == rest[j];
            assert upTo(s[0], s[k + 1]);
          }
        }
      }
    }
  }

  lemma {:induction false} InsertedFrom<T>(x: T, s: seq<T>, precedes: (T, T) -> bool, j: nat)
    requires j < |Insert(x, s, precedes)|
    ensures Insert(x, s, precedes)[j] == x || Insert(x, s, precedes)[j] in s
  {
    if |s| > 0 && !precedes(x, s[0]) && j > 0 {
      InsertedFrom(x, s[1..], precedes, j - 1);
    } else if |s| > 0 && precedes(x, s[0]) && j > 0 {
      assert Insert(x, s, precedes)[j] == s[j - 1];
    }
  }

  // The elements of s in order.
  method Sort<T(!new)>(s: seq<T>, precedes: (T, T) -> bool, ghost upTo: (T, T) -> bool) returns (sorted: seq<T>)
    requires Decides(precedes, upTo)
    ensures SortedBy(sorted, upTo) && multiset(sorted) == multiset(s)
  {
    sorted := [];
    for k := 0 to |s|
      invariant SortedBy(sorted, upTo) && multiset(sorted) == multiset(s[..k])
    {
      InsertAdds(s[k], sorted, precedes);
      InsertSorts(s[k], sorted, precedes, upTo);
      sorted := Insert(s[k], sorted, precedes);
      assert s[..k + 1] == s[..k] + [s[k]];
    }
    assert s[..|s|] == s;
  }
}
