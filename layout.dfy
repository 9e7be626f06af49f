/**
 * Angular layout. In the newest version every family owns a sector of the circle whose width
 * halves with each level; its parents and children get angles inside it. The older TypeScript
 * version draws a marriage as an arc between the two parents' angles.
 * Angles are degrees, as `real`.
 */
module Layout {
  import opened Wrappers
  import opened JsArrays
  import Dates

  // ---------------------------------------------------------------------------------------
  // Sectors (src/models/Data.ts)

  /** `2 ** level` for any integer level (negative levels give fractions). */
  function Pow2(level: int): (p: real)
    ensures p > 0.0
    decreases if level < 0 then -level else level
  {
    if level == 0 then 1.0
    else if level > 0 then 2.0 * Pow2(level - 1)
    else Pow2(level + 1) / 2.0
  }

  /** `360 / 2 ** level`. */
  function SectorWidth(level: int): (w: real)
    ensures w > 0.0
  {
    360.0 / Pow2(level)
  }

  lemma {:induction false} Pow2Step(level: int)
    ensures Pow2(level + 1) == 2.0 * Pow2(level)
    decreases if level < 0 then -level else level
  {
    if level < -1 {
      Pow2Step(level + 1);
    }
  }

  /** One level up (towards the ancestors) the sector is half as wide; level 1 is a half circle. */
  lemma SectorHalvesPerLevel(level: int)
    ensures SectorWidth(level + 1) * 2.0 == SectorWidth(level)
    ensures SectorWidth(0) == 360.0 && SectorWidth(1) == 180.0
  {
    Pow2Step(level);
    assert Pow2(1) == 2.0;
  }

  /** Where the family was reached from: the queue entry's source person, found by handle. */
  datatype SourceSlot =
    | NoSource                                   // the root family
    | AtParent(angle: real, index: int)          // source is `parents[index]`
    | AtChild(angle: real, index: int, count: int)  // source is `children[index]` of `count`
    | Missing                                    // source is neither

  /** The family's centre angle. */
  function Centre(width: real, slot: SourceSlot): (r: Result<real>)
    requires slot.AtChild? ==> slot.count >= 0
    ensures r.Err? <==> slot.Missing?
    ensures r.Err? ==> r.error == SourceNotFound
    ensures slot.NoSource? ==> r == Ok(180.0)
  {
    match slot
    case NoSource => Ok(180.0)
    case AtParent(a, i) => Ok(a + (if i == 1 then -1.0 else 1.0) * width / 2.0)
    case AtChild(a, i, n) => Ok(a - ((i + 1) as real / (n + 1) as real) * width + width / 2.0)
    case Missing => Err(SourceNotFound)
  }

  /** The angle of the parent at `i` among those other than the source. */
  function ParentAngle(centre: real, width: real, i: int): real {
    centre + (i as real - 0.5) * width
  }

  /** The angle of the child at `i` among those other than the source, of `count` children in all. */
  function ChildAngle(centre: real, width: real, count: nat, i: int): real {
    centre - width / 2.0 + width / (count + 1) as real * (i + 1) as real
  }

  lemma ChildStep(width: real, count: nat, i: int)
    ensures width / (count + 1) as real * (i + 1) as real == (i + 1) as real / (count + 1) as real * width
  {
  }

  /** A source child keeps its angle: the centre is chosen so that its own slot is where it already is. */
  lemma SourceChildKeepsItsAngle(angle: real, width: real, i: nat, count: nat)
    requires i < count
    ensures ChildAngle(Centre(width, AtChild(angle, i, count)).value, width, count, i) == angle
  {
    ChildStep(width, count, i);
  }

  /**
   * The children after the source move down one filtered index, so the next sibling is put
   * exactly on the source child's angle.
   */
  lemma NextSiblingTakesSourceSlot<T>(children: seq<T>, i: nat, angle: real, width: real)
    requires Distinct(children) && i + 1 < |children|
    ensures Without(children, children[i]) == children[..i] + children[i + 1..]
    ensures Without(children, children[i])[i] == children[i + 1]
    ensures ChildAngle(Centre(width, AtChild(angle, i, |children|)).value, width, |children|, i) == angle
  {
    WithoutAt(children, i);
    SourceChildKeepsItsAngle(angle, width, i, |children|);
  }

  /** Children are spread left to right, strictly inside the sector. */
  lemma ChildAnglesInsideSector(centre: real, width: real, count: nat, i: int, j: int)
    requires width > 0.0 && 0 <= i < j < count
    ensures ChildAngle(centre, width, count, i) < ChildAngle(centre, width, count, j)
    ensures centre - width / 2.0 < ChildAngle(centre, width, count, i)
    ensures ChildAngle(centre, width, count, j) < centre + width / 2.0
  {
    var step := width / (count + 1) as real;
    assert step > 0.0;
    assert step * (i + 1) as real < step * (j + 1) as real;
    assert step * (j + 1) as real < step * (count + 1) as real;
    assert step * (count + 1) as real == width;
  }

  /** The root family's parents sit half a sector either side of 180. */
  lemma RootParentsAroundCentre(width: real)
    ensures ParentAngle(180.0, width, 0) == 180.0 - width / 2.0
    ensures ParentAngle(180.0, width, 1) == 180.0 + width / 2.0
  {
  }

  /**
   * A source parent at index 1 (the mother) puts the centre half a sector to her left, and the
   * father, now at filtered index 0, a whole sector to her left. A source parent at index 0 puts
   * the centre half a sector to his right, and the mother, now at filtered index 0, lands on his
   * own angle.
   */
  lemma OtherParentPlacement(angle: real, width: real)
    ensures ParentAngle(Centre(width, AtParent(angle, 1)).value, width, 0) == angle - width
    ensures ParentAngle(Centre(width, AtParent(angle, 0)).value, width, 0) == angle
  {
  }

  // ---------------------------------------------------------------------------------------
  // Marriage arcs (src/ts/TreeNode.ts, src/ts/model/Family.ts)

  /** JavaScript `x % 360`: the remainder of a truncating division, with the sign of `x`. */
  function Rem360(x: real): (r: real)
    ensures 0.0 <= x ==> 0.0 <= r < 360.0
    ensures x < 0.0 ==> -360.0 < r <= 0.0
    ensures ((x - r) / 360.0).Floor as real == (x - r) / 360.0   // a whole number of turns removed
  {
    var q := Dates.Trunc(x / 360.0);
    x - q as real * 360.0
  }

  datatype Arc = Arc(start: real, end: real, dTheta: real, largeArc: int, sweep: int)

  /**
   * The arc between the two parents: the ends are swapped when the family's angle lies in the
   * lower half (`angle % 360 > 180`) to keep the name upright; the sweep is normalised into a half turn.
   */
  function MarriageArc(angle: real, first: real, second: real): (a: Arc)
    ensures (a.start, a.end) == if Rem360(angle) > 180.0 then (first, second) else (second, first)
    ensures a.dTheta == NormalisedSweep(a.start, a.end)
    ensures a.largeArc == (if a.dTheta > 180.0 || a.dTheta < -180.0 then 1 else 0)
    ensures a.sweep == 1 <==> a.dTheta > 0.0
  {
    var (start, end) := if Rem360(angle) > 180.0 then (first, second) else (second, first);
    var d := NormalisedSweep(start, end);
    Arc(start, end, d, if d > 180.0 || d < -180.0 then 1 else 0, if d > 0.0 then 1 else 0)
  }

  /** `dTheta += dTheta > 180 ? -360 : dTheta < -180 ? 360 : 0`, for `dTheta = end − start`. */
  function NormalisedSweep(start: real, end: real): real {
    var d := end - start;
    d + (if d > 180.0 then -360.0 else if d < -180.0 then 360.0 else 0.0)
  }

  /** Ends at most 540° apart are brought within a half turn, so the large-arc flag is never set. */
  lemma ArcWithinHalfTurn(angle: real, first: real, second: real)
    requires -540.0 <= second - first <= 540.0
    ensures -180.0 <= MarriageArc(angle, first, second).dTheta <= 180.0
    ensures MarriageArc(angle, first, second).largeArc == 0
  {
  }

  /** Normalising moves the sweep by a whole turn at most: it still points at the same end. */
  lemma NormalisedSweepCongruent(start: real, end: real)
    ensures NormalisedSweep(start, end) - (end - start) in {-360.0, 0.0, 360.0}
    ensures -180.0 <= end - start <= 180.0 ==> NormalisedSweep(start, end) == end - start
  {
  }

  /** Swapping the ends negates the normalised sweep, so the upright swap only flips `sweep`. */
  lemma SwappedEndsNegateSweep(start: real, end: real)
    ensures NormalisedSweep(end, start) == -NormalisedSweep(start, end)
  {
  }

  /** A negative family angle has a non-positive remainder, so its ends are never swapped back. */
  lemma NegativeAngleKeepsSecondFirst(angle: real, first: real, second: real)
    requires angle < 0.0
    ensures MarriageArc(angle, first, second).start == second
  {
  }
}
