/**
 * A JavaScript `Map` (and a d3 v3 `d3.map`): key/value entries kept in insertion order.
 * `set` on a present key replaces its value and keeps its position; on a new key it appends.
 * `keys()[0]` / `keys().next().value` is the oldest key.
 */
module OrderedMap {
  import opened Wrappers
  import opened JsArrays

  type Map<K, V> = seq<(K, V)>

  function Keys<K, V>(m: Map<K, V>): (ks: seq<K>)
    ensures |ks| == |m|
    ensures forall i :: 0 <= i < |m| ==> ks[i] == m[i].0
  {
    seq(|m|, i requires 0 <= i < |m| => m[i].0)
  }

  /** Keys are unique, as in every JavaScript map. */
  predicate Valid<K(==), V>(m: Map<K, V>) {
    Distinct(Keys(m))
  }

  /** `m.has(k) ? m.get(k) : undefined`. */
  function Get<K(==), V>(m: Map<K, V>, k: K): (r: Option<V>)
    ensures r.None? <==> k !in Keys(m)
    ensures r.Some? ==> exists i :: 0 <= i < |m| && m[i] == (k, r.value)
  {
    if |m| == 0 then None
    else if m[|m| - 1].0 == k then Some(m[|m| - 1].1)
    else
      var r := Get(m[..|m| - 1], k);
      assert Keys(m) == Keys(m[..|m| - 1]) + [m[|m| - 1].0];
      r
  }

  lemma GetAt<K, V>(m: Map<K, V>, i: nat)
    requires Valid(m) && i < |m|
    ensures Get(m, m[i].0) == Some(m[i].1)
  {
    var g := Get(m, m[i].0);
    var j :| 0 <= j < |m| && m[j] == (m[i].0, g.value);
    assert Keys(m)[i] == Keys(m)[j];
  }

  /** `m.set(k, v)`. */
  function Set<K(==), V>(m: Map<K, V>, k: K, v: V): (r: Map<K, V>)
    requires Valid(m)
    ensures Valid(r)
    ensures Get(r, k) == Some(v)
    ensures k in Keys(m) ==> Keys(r) == Keys(m)
    ensures k !in Keys(m) ==> Keys(r) == Keys(m) + [k] && r == m + [(k, v)]
    ensures forall i :: 0 <= i < |r| ==> r[i] == (k, v) || (i < |m| && r[i] == m[i])
  {
    if k in Keys(m) then
      var i := IndexOf(Keys(m), k);
      var r := m[i := (k, v)];
      assert Keys(r) == Keys(m);
      GetAt(r, i);
      r
    else
      var r := m + [(k, v)];
      assert Keys(r) == Keys(m) + [k];
      r
  }

  /** `set` leaves every other key's value as it was. */
  lemma SetKeepsOthers<K, V>(m: Map<K, V>, k: K, v: V, k': K)
    requires Valid(m) && k' != k
    ensures Get(Set(m, k, v), k') == Get(m, k')
  {
    var r := Set(m, k, v);
    if k in Keys(m) {
      if k' in Keys(m) {
        var j := IndexOf(Keys(m), k');
        GetAt(m, j);
        GetAt(r, j);
      }
    } else {
      assert r[..|r| - 1] == m;
    }
  }

  /** `m.delete(k)` / `m.remove(k)`: the other entries keep their order. */
  function Remove<K(==), V>(m: Map<K, V>, k: K): (r: Map<K, V>)
    ensures Keys(r) == Without(Keys(m), k)
  {
    if |m| == 0 then []
    else
      var init := m[..|m| - 1];
      var last := m[|m| - 1];
      var rest := Remove(init, k);
      assert Keys(m) == Keys(init) + [last.0];
      if last.0 == k then rest
      else
        var r := rest + [last];
        assert r[..|r| - 1] == rest;
        r
  }

  /** After `delete(k)`, `k` is gone and every other key keeps its value. */
  lemma {:induction false} GetAfterRemove<K, V>(m: Map<K, V>, k: K, k': K)
    ensures Get(Remove(m, k), k') == if k' == k then None else Get(m, k')
  {
    if |m| > 0 {
      var init, last := m[..|m| - 1], m[|m| - 1];
      GetAfterRemove(init, k, k');
      if last.0 != k {
        var r := Remove(init, k) + [last];
        assert r[..|r| - 1] == Remove(init, k);
      }
    }
  }

  lemma RemoveKeepsValid<K(!new), V>(m: Map<K, V>, k: K)
    requires Valid(m)
    ensures Valid(Remove(m, k))
    ensures |Remove(m, k)| == if k in Keys(m) then |m| - 1 else |m|
  {
    WithoutKeepsDistinct(Keys(m), k);
    WithoutCount(Keys(m), k);
  }

  /** Removing the oldest key leaves the other entries, oldest first. */
  lemma {:induction false} RemoveFirst<K(!new), V>(m: Map<K, V>)
    requires Valid(m) && |m| > 0
    ensures Remove(m, m[0].0) == m[1..]
  {
    var k := m[0].0;
    var init, last := m[..|m| - 1], m[|m| - 1];
    if |m| == 1 {
      assert Remove(m, k) == Remove(init, k) == [];
    } else {
      assert Keys(init) == Keys(m)[..|m| - 1];
      assert Valid(init) && init[0] == m[0];
      RemoveFirst(init);
      assert last.0 != k by { assert Keys(m)[|m| - 1] != Keys(m)[0]; }
      calc {
        Remove(m, k);
        Remove(init, k) + [last];
        init[1..] + [last];
        { InitTail(m); }
        m[1..];
      }
    }
  }

  /** The entries behind the oldest are still a map, and none of them has the oldest key. */
  lemma TailValid<K, V>(m: Map<K, V>)
    requires Valid(m) && |m| > 0
    ensures Valid(m[1..])
    ensures forall i :: 0 <= i < |m| - 1 ==> m[1..][i].0 != m[0].0
  {
    assert Keys(m[1..]) == Keys(m)[1..];
    forall i | 0 <= i < |m| - 1 ensures m[1..][i].0 != m[0].0 {
      assert Keys(m)[i + 1] != Keys(m)[0];
    }
  }

  lemma InitTail<T>(s: seq<T>)
    requires |s| >= 2
    ensures s[..|s| - 1][1..] + [s[|s| - 1]] == s[1..]
  {
    assert forall i :: 0 <= i < |s| - 1 ==> (s[..|s| - 1][1..] + [s[|s| - 1]])[i] == s[1..][i];
  }
}
