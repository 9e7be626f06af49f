/**
 * `Tree.addToLevel`, the same in the newest and the older TypeScript version: the person is
 * pushed onto the list for its new level. When the person already had a different, non-zero
 * level, the NEW level's list is first cut at `indexOf(person)` with a one-argument `splice`.
 */
module Levels {
  import opened Wrappers
  import opened JsArrays

  /** `levels[level]`, or the empty list `addToLevel` creates when it is missing. */
  function LevelList<T>(levels: map<int, seq<T>>, level: int): seq<T> {
    if level in levels then levels[level] else []
  }

  /** `person.level && person.level !== level`: a previous level that is set, non-zero and different. */
  predicate MovesLevel(was: Option<int>, level: int) {
    was.Some? && was.value != 0 && was.value != level
  }

  /** The list for `level` after `addToLevel(person, level)`, given the person's previous level. */
  function AddedToLevel<T(==)>(list: seq<T>, p: T, was: Option<int>, level: int): seq<T> {
    (if MovesLevel(was, level) then SpliceFrom(list, IndexOf(list, p)) else list) + [p]
  }

  /** The person always ends up last in the list of its new level. */
  lemma AddedLast<T>(list: seq<T>, p: T, was: Option<int>, level: int)
    ensures |AddedToLevel(list, p, was, level)| > 0
    ensures AddedToLevel(list, p, was, level)[|AddedToLevel(list, p, was, level)| - 1] == p
    ensures |AddedToLevel(list, p, was, level)| <= |list| + 1
  {
  }

  /**
   * A person without a level, with the falsy level 0, or already on this level is appended:
   * the list grows by exactly one and the earlier entries stay as they were.
   */
  lemma UnmovedPersonIsAppended<T>(list: seq<T>, p: T, was: Option<int>, level: int)
    requires was.None? || was == Some(0) || was == Some(level)
    ensures AddedToLevel(list, p, was, level) == list + [p]
  {
  }

  /**
   * A person moved from another level and already in the new list is cut back to its own
   * position: everything from its first occurrence on is dropped, then it is pushed.
   */
  lemma MovedPresentPersonTruncates<T>(list: seq<T>, p: T, was: Option<int>, level: int)
    requires MovesLevel(was, level) && p in list
    ensures var i := IndexOf(list, p);
      AddedToLevel(list, p, was, level) == list[..i] + [p] && p !in list[..i]
  {
  }

  /**
   * A person moved from another level and NOT in the new list: `indexOf` gives −1 and
   * `splice(−1)` drops the list's last entry, someone else, before the push.
   */
  lemma MovedAbsentPersonDropsLast<T>(list: seq<T>, p: T, was: Option<int>, level: int)
    requires MovesLevel(was, level) && p !in list && |list| > 0
    ensures AddedToLevel(list, p, was, level) == list[..|list| - 1] + [p]
    ensures |AddedToLevel(list, p, was, level)| == |list|
  {
    SpliceOfMissingDropsLast(list, p);
  }

  /** `Math.max(maxLevel, level)`. */
  function MaxLevel(a: int, b: int): (m: int)
    ensures m >= a && m >= b && (m == a || m == b)
  {
    if a >= b then a else b
  }
}
