/**
 * `TreeNode.estimateLifespan`: an expected lifespan in years, read off a linear scale over the
 * years 1775..2019. The newest version maps that range onto 38..92 years, the older TypeScript
 * version onto 38..82. Given only a death, the domain is shifted by the range (a death in year
 * `y + lifespan(y)` belongs to someone born in `y`), and the shifted scale is read at the death year.
 */
module Lifespan {
  import opened Wrappers
  import opened Dates

  /** Which iteration of the engine: they differ only in the longest lifespan. */
  datatype Version = Newest | Legacy

  const FirstYear: real := 1775.0
  const LastYear: real := 2019.0
  const Shortest: real := 38.0

  function Longest(v: Version): real {
    match v
    case Newest => 92.0
    case Legacy => 82.0
  }

  /** `d3.scaleLinear().domain([d0, d1]).range([r0, r1])` applied to `x`, unclamped. */
  function Linear(d0: real, d1: real, r0: real, r1: real, x: real): real
    requires d0 != d1
  {
    r0 + (x - d0) / (d1 - d0) * (r1 - r0)
  }

  /** The scale read at a birth year. */
  function FromBirthYear(v: Version, y: real): real {
    Linear(FirstYear, LastYear, Shortest, Longest(v), y)
  }

  /** The scale with its domain shifted by its range, `[1775 + 38, 2019 + longest]`, read at a death year. */
  function FromDeathYear(v: Version, y: real): real {
    Linear(FirstYear + Shortest, LastYear + Longest(v), Shortest, Longest(v), y)
  }

  /** `estimateLifespan(birth, death)`: birth first, then death, else `undefined`. */
  function Estimate(cal: Calendar, v: Version, birth: Option<Date>, death: Option<Date>): Option<real> {
    if birth.Some? then Some(FromBirthYear(v, cal.utcYear(birth.value) as real))
    else if death.Some? then Some(FromDeathYear(v, cal.utcYear(death.value) as real))
    else None
  }

  /** With a birth, the lifespan is `38 + (y − 1775)·(longest − 38)/244`: 1775 gives 38 and 2019 the longest. */
  lemma BirthScale(v: Version, y: real)
    ensures FromBirthYear(v, y) == Shortest + (y - FirstYear) * (Longest(v) - Shortest) / 244.0
    ensures FromBirthYear(v, FirstYear) == Shortest && FromBirthYear(v, LastYear) == Longest(v)
  {
  }

  /** The birth scale is not clamped and strictly increases with the year. */
  lemma BirthScaleIncreasing(v: Version, y1: real, y2: real)
    requires y1 < y2
    ensures FromBirthYear(v, y1) < FromBirthYear(v, y2)
  {
    BirthScale(v, y1);
    BirthScale(v, y2);
  }

  /** Given only a death, 1813 gives 38 and `2019 + longest` (2111 or 2101) gives the longest. */
  lemma DeathScaleAnchors(v: Version)
    ensures FromDeathYear(v, 1813.0) == Shortest
    ensures FromDeathYear(v, LastYear + Longest(v)) == Longest(v)
    ensures v == Newest ==> FromDeathYear(v, 2111.0) == 92.0
    ensures v == Legacy ==> FromDeathYear(v, 2101.0) == 82.0
  {
  }

  /**
   * The shifted domain inverts the birth scale: someone born in year `y` who lives the expected
   * `FromBirthYear(y)` years dies in a year whose death-based lifespan is that same number.
   */
  lemma DeathScaleInvertsBirthScale(v: Version, y: real)
    ensures FromDeathYear(v, y + FromBirthYear(v, y)) == FromBirthYear(v, y)
  {
    var k := (Longest(v) - Shortest) / 244.0;
    BirthScale(v, y);
    assert y + FromBirthYear(v, y) - (FirstYear + Shortest) == (1.0 + k) * (y - FirstYear);
    assert LastYear + Longest(v) - (FirstYear + Shortest) == 244.0 * (1.0 + k);
  }

  /** A birth takes precedence over a death; with neither the result is `undefined`. */
  lemma EstimatePrecedence(cal: Calendar, v: Version, birth: Option<Date>, death: Option<Date>)
    ensures birth.Some? ==> Estimate(cal, v, birth, death) == Estimate(cal, v, birth, None)
    ensures birth.Some? ==> Estimate(cal, v, birth, death) == Some(FromBirthYear(v, cal.utcYear(birth.value) as real))
    ensures birth.None? && death.Some? ==> Estimate(cal, v, birth, death) == Some(FromDeathYear(v, cal.utcYear(death.value) as real))
    ensures Estimate(cal, v, birth, death).None? <==> birth.None? && death.None?
  {
  }
}
