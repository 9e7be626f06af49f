/**
 * The older versions place people around each ring by a "sortList": the path of relations
 * (child, spouse, parent, sibling) from the root family to the person, newest step first.
 * `sortLevel` compares two such paths from the root end.
 */
module Sorting {
  import opened Wrappers

  datatype Rel = Child | Spouse | Parent | Sibling

  datatype SortItem = SortItem(rel: Rel, order: int)

  /** The order of the `k`-th item counting from the end (the root end is `k == 1`). */
  function OrderFromEnd(s: seq<SortItem>, k: nat): int
    requires 1 <= k <= |s|
  {
    s[|s| - k].order
  }

  /** The last `n` orders of `a` and `b` agree, position by position from the end. */
  predicate AgreeFromEnd(a: seq<SortItem>, b: seq<SortItem>, n: nat)
    requires n <= |a| && n <= |b|
  {
    forall k :: 1 <= k <= n ==> OrderFromEnd(a, k) == OrderFromEnd(b, k)
  }

  function MinLen(a: seq<SortItem>, b: seq<SortItem>): nat {
    if |a| <= |b| then |a| else |b|
  }

  /**
   * What `sortLevel(a, b)` returns or throws: `b.order − a.order` at the first position, counting
   * from the end, where the orders differ; "Can't sort people!" when the last `min(len)` agree.
   */
  function CompareFromEnd(a: seq<SortItem>, b: seq<SortItem>): (r: Result<int>)
    ensures r.Err? <==> AgreeFromEnd(a, b, MinLen(a, b))
    ensures r.Err? ==> r.error == CantSortPeople
    ensures r.Ok? ==> r.value != 0
    ensures r.Ok? ==> exists k :: (1 <= k <= MinLen(a, b) && AgreeFromEnd(a, b, k - 1) &&
      OrderFromEnd(a, k) != OrderFromEnd(b, k) && r.value == OrderFromEnd(b, k) - OrderFromEnd(a, k))
    decreases |a|
  {
    if |a| == 0 || |b| == 0 then Err(CantSortPeople)
    else if OrderFromEnd(a, 1) != OrderFromEnd(b, 1) then
      assert AgreeFromEnd(a, b, 0);
      Ok(OrderFromEnd(b, 1) - OrderFromEnd(a, 1))
    else
      var a', b' := a[..|a| - 1], b[..|b| - 1];
      var r := CompareFromEnd(a', b');
      assert forall k :: 1 <= k <= MinLen(a', b') ==>
        OrderFromEnd(a', k) == OrderFromEnd(a, k + 1) && OrderFromEnd(b', k) == OrderFromEnd(b, k + 1);
      assert AgreeFromEnd(a, b, MinLen(a, b)) <==> AgreeFromEnd(a', b', MinLen(a', b')) by {
        if AgreeFromEnd(a', b', MinLen(a', b')) {
          forall k | 1 <= k <= MinLen(a, b) ensures OrderFromEnd(a, k) == OrderFromEnd(b, k) {
            if k > 1 { assert OrderFromEnd(a', k - 1) == OrderFromEnd(b', k - 1); }
          }
        }
      }
      assert r.Ok? ==> exists k :: (1 <= k <= MinLen(a, b) && AgreeFromEnd(a, b, k - 1) &&
        OrderFromEnd(a, k) != OrderFromEnd(b, k) && r.value == OrderFromEnd(b, k) - OrderFromEnd(a, k)) by {
        if r.Ok? {
          var k :| 1 <= k <= MinLen(a', b') && AgreeFromEnd(a', b', k - 1)
            && OrderFromEnd(a', k) != OrderFromEnd(b', k) && r.value == OrderFromEnd(b', k) - OrderFromEnd(a', k);
          forall j | 1 <= j <= k ensures OrderFromEnd(a, j) == OrderFromEnd(b, j) {
            if j > 1 { assert OrderFromEnd(a', j - 1) == OrderFromEnd(b', j - 1); }
          }
          assert AgreeFromEnd(a, b, k);
          assert OrderFromEnd(a, k + 1) != OrderFromEnd(b, k + 1);
        }
      }
      r
  }

  /** `Tree.sortLevel(a, b)` on the two people's sortLists. */
  method SortLevel(a: seq<SortItem>, b: seq<SortItem>) returns (r: Result<int>)
    ensures r == CompareFromEnd(a, b)
  {
    var aLen, bLen := |a|, |b|;
    var minLen := if aLen < bLen then aLen else bLen;
    var i := 1;
    while i <= minLen
      invariant 1 <= i <= minLen + 1
      invariant AgreeFromEnd(a, b, i - 1)
    {
      var aSort, bSort := a[aLen - i], b[bLen - i];
      if aSort.order != bSort.order {
        FirstDifferenceDecides(a, b, i);
        return Ok(bSort.order - aSort.order);
      }
      i := i + 1;
    }
    return Err(CantSortPeople);
  }

  /** The first position from the end where the orders differ decides the comparison. */
  lemma FirstDifferenceDecides(a: seq<SortItem>, b: seq<SortItem>, k: nat)
    requires 1 <= k <= MinLen(a, b) && AgreeFromEnd(a, b, k - 1)
    requires OrderFromEnd(a, k) != OrderFromEnd(b, k)
    ensures CompareFromEnd(a, b) == Ok(OrderFromEnd(b, k) - OrderFromEnd(a, k))
  {
    var r := CompareFromEnd(a, b);
    assert !AgreeFromEnd(a, b, MinLen(a, b));
    var k' :| 1 <= k' <= MinLen(a, b) && AgreeFromEnd(a, b, k' - 1) &&
      OrderFromEnd(a, k') != OrderFromEnd(b, k') && r.value == OrderFromEnd(b, k') - OrderFromEnd(a, k');
    assert k <= k';
    assert k' <= k;
  }

  /** A person compared with itself always throws. */
  lemma SelfComparisonThrows(a: seq<SortItem>)
    ensures CompareFromEnd(a, a) == Err(CantSortPeople)
  {
  }

  /** Where defined, swapping the arguments negates the result; where undefined, it stays so. */
  lemma {:induction false} CompareAntisymmetric(a: seq<SortItem>, b: seq<SortItem>)
    ensures CompareFromEnd(a, b).Ok? <==> CompareFromEnd(b, a).Ok?
    ensures CompareFromEnd(a, b).Ok? ==> CompareFromEnd(b, a).value == -CompareFromEnd(a, b).value
    decreases |a|
  {
    if |a| > 0 && |b| > 0 && a[|a| - 1].order == b[|b| - 1].order {
      CompareAntisymmetric(a[..|a| - 1], b[..|b| - 1]);
    }
  }

  /** Two paths that differ only in their first (newest) step compare by that step's order. */
  lemma {:induction false} CompareSharedTail(h1: SortItem, h2: SortItem, t: seq<SortItem>)
    ensures CompareFromEnd([h1] + t, [h2] + t) ==
      if h1.order != h2.order then Ok(h2.order - h1.order) else Err(CantSortPeople)
  {
    if |t| > 0 {
      var t' := t[..|t| - 1];
      assert ([h1] + t)[..|t|] == [h1] + t';
      assert ([h2] + t)[..|t|] == [h2] + t';
      CompareSharedTail(h1, h2, t');
    }
  }

  /**
   * A child's sortList: a copy of the family's with the head replaced by `{Sibling, i}` (shifted
   * by ±1 with the sign of element 1's order, when there is one) if the family was reached from a
   * child, else by `{Child, i}`. An empty family sortList has no head: reading `rel` of undefined.
   */
  function ChildSortList(family: seq<SortItem>, i: int): (r: Result<seq<SortItem>>)
    ensures r.Err? <==> |family| == 0
    ensures r.Ok? ==> |r.value| == |family| && r.value[1..] == family[1..]
    ensures r.Ok? ==> r.value[0].rel == (if family[0].rel == Child then Sibling else Child)
    ensures r.Ok? && family[0].rel != Child ==> r.value[0].order == i
    ensures r.Ok? && family[0].rel == Child ==>
      r.value[0].order == i + (if |family| > 1 then (if family[1].order >= 0 then 1 else -1) else 0)
  {
    if |family| == 0 then Err(UndefinedValue)
    else if family[0].rel == Child then
      var shift := if |family| > 1 then (if family[1].order >= 0 then 1 else -1) else 0;
      Ok([SortItem(Sibling, i + shift)] + family[1..])
    else
      Ok([SortItem(Child, i)] + family[1..])
  }

  /**
   * A parent's sortList: the slice it was given with the head replaced by Parent (reached from a
   * child) or Spouse (reached from the other parent), ordered −1 on the left (male / father slot)
   * and +1 on the right.
   */
  function ParentSortList(incoming: seq<SortItem>, left: bool): (r: Result<seq<SortItem>>)
    ensures r.Err? <==> |incoming| == 0
    ensures r.Ok? ==> |r.value| == |incoming| && r.value[1..] == incoming[1..]
    ensures r.Ok? ==> r.value[0] == SortItem(if incoming[0].rel == Child then Parent else Spouse, if left then -1 else 1)
  {
    if |incoming| == 0 then Err(UndefinedValue)
    else Ok([SortItem(if incoming[0].rel == Child then Parent else Spouse, if left then -1 else 1)] + incoming[1..])
  }

  /** The sorting a parent passes up to its own parents' family: `{Child, 0}` prepended. */
  function UpwardSorting(parent: seq<SortItem>): seq<SortItem> {
    [SortItem(Child, 0)] + parent
  }

  /** The sorting a child passes down to the family it parents: `{Parent, 0}` prepended. */
  function DownwardSorting(child: seq<SortItem>): seq<SortItem> {
    [SortItem(Parent, 0)] + child
  }

  /** Two children of one family never tie: they compare by their child order, `j − i`. */
  lemma SiblingsCompareByIndex(family: seq<SortItem>, i: int, j: int)
    requires |family| > 0 && i != j
    ensures CompareFromEnd(ChildSortList(family, i).value, ChildSortList(family, j).value) == Ok(j - i)
  {
    var a, b := ChildSortList(family, i).value, ChildSortList(family, j).value;
    assert a == [a[0]] + family[1..] && b == [b[0]] + family[1..];
    CompareSharedTail(a[0], b[0], family[1..]);
  }

  /** The two parents of a family never tie: left (−1) against right (+1) compares as 2. */
  lemma SpousesCompareLeftToRight(family: seq<SortItem>)
    requires |family| > 0
    ensures CompareFromEnd(ParentSortList(family, true).value, ParentSortList(family, false).value) == Ok(2)
  {
    var a, b := ParentSortList(family, true).value, ParentSortList(family, false).value;
    assert a == [a[0]] + family[1..] && b == [b[0]] + family[1..];
    CompareSharedTail(a[0], b[0], family[1..]);
  }

  /** A sorting passed to another family keeps the person's path behind its new head. */
  lemma PassedSortingExtendsPath(s: seq<SortItem>)
    ensures UpwardSorting(s)[1..] == s && DownwardSorting(s)[1..] == s
    ensures |UpwardSorting(s)| == |s| + 1 && |DownwardSorting(s)| == |s| + 1
  {
  }
}
