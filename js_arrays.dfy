/** The few JavaScript array operations the engine relies on, with their exact semantics. */
module JsArrays {

  /** `Array.prototype.indexOf`: the first index holding `x`, or -1. */
  function IndexOf<T(==)>(s: seq<T>, x: T): (r: int)
    ensures -1 <= r < |s|
    ensures r == -1 <==> x !in s
    ensures r >= 0 ==> s[r] == x && forall j :: 0 <= j < r ==> s[j] != x
  {
    if |s| == 0 then -1
    else if s[0] == x then 0
    else
      var k := IndexOf(s[1..], x);
      if k == -1 then -1 else k + 1
  }

  /**
   * `s.splice(start)` with a single argument, as the value left in `s`: everything from the
   * resolved start position on is removed; a negative start counts from the end.
   */
  function SpliceFrom<T>(s: seq<T>, start: int): (r: seq<T>)
    ensures start >= |s| ==> r == s
    ensures 0 <= start <= |s| ==> r == s[..start]
    ensures start < 0 && |s| + start >= 0 ==> r == s[..|s| + start]
    ensures start < 0 && |s| + start < 0 ==> r == []
  {
    var from := if start < 0 then (if |s| + start < 0 then 0 else |s| + start)
                else (if start > |s| then |s| else start);
    s[..from]
  }

  /** `s.filter((p) => p !== x)`: `s` without the occurrences of `x`, order kept. */
  function Without<T(==)>(s: seq<T>, x: T): (r: seq<T>)
    ensures x !in r
    ensures forall i :: 0 <= i < |r| ==> r[i] in s
    ensures forall i :: 0 <= i < |s| && s[i] != x ==> s[i] in r
    ensures |r| <= |s|
    ensures x !in s ==> r == s
  {
    if |s| == 0 then []
    else
      var init := Without(s[..|s| - 1], x);
      assert forall i :: 0 <= i < |s| - 1 ==> s[..|s| - 1][i] == s[i];
      if s[|s| - 1] == x then init else init + [s[|s| - 1]]
  }

  /** No element occurs twice. */
  predicate Distinct<T(==)>(s: seq<T>) {
    forall i, j :: 0 <= i < j < |s| ==> s[i] != s[j]
  }

  lemma {:induction false} WithoutKeepsDistinct<T>(s: seq<T>, x: T)
    requires Distinct(s)
    ensures Distinct(Without(s, x))
  {
    if |s| > 0 {
      var init := s[..|s| - 1];
      assert Distinct(init);
      WithoutKeepsDistinct(init, x);
      if s[|s| - 1] != x {
        assert s[|s| - 1] !in init;
        assert s[|s| - 1] !in Without(init, x);
      }
    }
  }

  /** In a distinct sequence, filtering out the element at `i` is removing index `i`. */
  lemma {:induction false} WithoutAt<T>(s: seq<T>, i: nat)
    requires Distinct(s) && i < |s|
    ensures Without(s, s[i]) == s[..i] + s[i + 1..]
  {
    var init := s[..|s| - 1];
    assert Distinct(init);
    if i == |s| - 1 {
      assert s[i] !in init;
      assert s[..i] == init;
    } else {
      WithoutAt(init, i);
      assert init[i] == s[i] && s[|s| - 1] != s[i];
      assert Without(s, s[i]) == Without(init, s[i]) + [s[|s| - 1]];
      Resplice(s, i);
    }
  }

  lemma Resplice<T>(s: seq<T>, i: nat)
    requires i < |s| - 1
    ensures s[..|s| - 1][..i] + s[..|s| - 1][i + 1..] + [s[|s| - 1]] == s[..i] + s[i + 1..]
  {
    assert s[..|s| - 1][..i] == s[..i];
    assert s[..|s| - 1][i + 1..] + [s[|s| - 1]] == s[i + 1..];
  }

  /** A distinct sequence loses exactly one element when a present value is filtered out. */
  lemma {:induction false} WithoutCount<T>(s: seq<T>, x: T)
    requires Distinct(s)
    ensures |Without(s, x)| == if x in s then |s| - 1 else |s|
  {
    if |s| > 0 {
      var init := s[..|s| - 1];
      assert Distinct(init);
      WithoutCount(init, x);
      if s[|s| - 1] == x {
        assert x !in init;
      } else if x in s {
        var k :| 0 <= k < |s| && s[k] == x;
        assert init[k] == x;
      }
    }
  }

  /** Removing the last element immediately before a splice of index -1 is what -1 does. */
  lemma SpliceOfMissingDropsLast<T>(s: seq<T>, x: T)
    requires x !in s && |s| > 0
    ensures SpliceFrom(s, IndexOf(s, x)) == s[..|s| - 1]
  {
  }

  /** A distinct sequence drawn from a finite set is no longer than the set. */
  lemma {:induction false} DistinctWithin<T>(s: seq<T>, bound: set<T>)
    requires Distinct(s) && forall i :: 0 <= i < |s| ==> s[i] in bound
    ensures |s| <= |bound|
  {
    if |s| > 0 {
      var init, last := s[..|s| - 1], s[|s| - 1];
      assert forall i :: 0 <= i < |init| ==> init[i] in bound - {last} by {
        forall i | 0 <= i < |init| ensures init[i] in bound - {last} {
          assert init[i] == s[i] && s[i] != s[|s| - 1];
        }
      }
      DistinctWithin(init, bound - {last});
    }
  }

  /** `new Set(s)`: the elements of `s`. */
  function Elements<T>(s: seq<T>): set<T> {
    set x | x in s
  }

  lemma ElementsConcat<T>(a: seq<T>, b: seq<T>)
    ensures Elements(a + b) == Elements(a) + Elements(b)
  {
  }

  lemma ElementsSnoc<T>(s: seq<T>, j: nat)
    requires j < |s|
    ensures Elements(s[..j + 1]) == Elements(s[..j]) + {s[j]}
  {
    assert s[..j + 1] == s[..j] + [s[j]];
    ElementsConcat(s[..j], [s[j]]);
  }

  /** The last index at which `x` occurs in `s`: the `forEach` index whose write survives. */
  function LastIndex<T(==)>(s: seq<T>, x: T): (i: nat)
    requires x in s
    ensures i < |s| && s[i] == x && x !in s[i + 1..]
    ensures forall m :: i < m < |s| ==> s[m] != x
  {
    if s[|s| - 1] == x then |s| - 1
    else
      assert x in s[..|s| - 1] by { var k :| 0 <= k < |s| && s[k] == x; assert s[..|s| - 1][k] == x; }
      var i := LastIndex(s[..|s| - 1], x);
      assert s[i + 1..] == s[..|s| - 1][i + 1..] + [s[|s| - 1]];
      i
  }

  /** Extending a prefix by one element moves the last index of that element only. */
  lemma LastIndexStep<T>(q: seq<T>, i: nat, x: T)
    requires i < |q| && x in q[..i + 1]
    ensures LastIndex(q[..i + 1], x) == if x == q[i] then i else LastIndex(q[..i], x)
  {
    var s := q[..i + 1];
    var j := LastIndex(s, x);
    assert s[i] == q[i];
    if x != q[i] {
      assert j < i;
      assert q[..i][j] == x;
      var k := LastIndex(q[..i], x);
      assert s[k] == x;
    }
  }
}
