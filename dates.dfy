/**
 * Dates as the engine handles them: a JavaScript `Date` is its time value, a whole number
 * of milliseconds since the Unix epoch. Calendar arithmetic (adding years with luxon or
 * moment, reading the UTC year, the difference of two dates in years) is not modelled: it is
 * a `Calendar` value passed in, so every property proved here holds for any calendar.
 */
module Dates {
  import opened Wrappers

  /** A `Date`, as `getTime()` / `valueOf()` gives it. */
  type Date = int

  datatype Calendar = Calendar(
    addYears: (Date, real) -> Date,        // DateTime.plus({ years }) / moment.add(n, 'year')
    utcYear: Date -> int,                  // Date.prototype.getUTCFullYear
    yearsBetween: (Date, Date) -> real)    // later.diff(earlier, 'year'): years from earlier to later

  /** ToIntegerOrInfinity, as `new Date(x)` and `setTime(x)` apply it: truncation toward zero. */
  function Trunc(x: real): (r: int)
    ensures 0.0 <= x ==> r as real <= x < r as real + 1.0
    ensures x < 0.0 ==> r as real - 1.0 < x <= r as real
  {
    if x >= 0.0 then x.Floor else -((-x).Floor)
  }

  /** `getUTCMilliseconds()`: the 0-999 millisecond field of the time of day. */
  function MsField(d: Date): (r: int)
    ensures 0 <= r < 1000
    ensures (d - r) % 1000 == 0
  {
    d % 1000
  }

  /** `DateTime.fromMillis(x)` / `moment(x)` / `new Date(x)` on a number of milliseconds. */
  function FromMillis(ms: real): Date {
    Trunc(ms)
  }

  /** `moment(d).add(ms)`: a bare number is a count of milliseconds, and the sum is truncated. */
  function AddMillis(d: Date, ms: real): (r: Date)
    ensures ms >= 0.0 ==> d <= r
    ensures ms <= 0.0 ==> r <= d
    ensures -1.0 < r as real - (d as real + ms) < 1.0
  {
    Trunc(d as real + ms)
  }

  function Min(a: Date, b: Date): Date { if a <= b then a else b }
  function Max(a: Date, b: Date): Date { if a >= b then a else b }

  // ---------------------------------------------------------------------------------------
  // The tree's date range (`dateRange[0]`, `dateRange[1]`, each possibly unset)

  datatype DateRange = DateRange(lo: Option<Date>, hi: Option<Date>)

  /** The two bounds after `addToDateRange(d)`. */
  function WithDate(r: DateRange, d: Date): (s: DateRange)
    ensures s.lo.Some? && s.hi.Some?
    ensures s.lo.value <= d <= s.hi.value
    ensures r.lo.Some? ==> s.lo.value <= r.lo.value
    ensures r.hi.Some? ==> r.hi.value <= s.hi.value
    ensures s.lo.value == d || s.lo == r.lo
    ensures s.hi.value == d || s.hi == r.hi
  {
    DateRange(
      Some(if r.lo.Some? then Min(r.lo.value, d) else d),
      Some(if r.hi.Some? then Max(r.hi.value, d) else d))
  }

  /** `addToDateRange` applied to each date in turn. */
  function WithDates(r: DateRange, ds: seq<Date>): DateRange
  {
    if |ds| == 0 then r else WithDate(WithDates(r, ds[..|ds| - 1]), ds[|ds| - 1])
  }

  /** One more date: one more `addToDateRange`. */
  lemma WithDatesSnoc(r: DateRange, ds: seq<Date>, d: Date)
    ensures WithDates(r, ds + [d]) == WithDate(WithDates(r, ds), d)
  {
    assert (ds + [d])[..|ds|] == ds;
  }

  /** The first call sets both bounds. */
  lemma FirstDateSetsBoth(d: Date)
    ensures WithDate(DateRange(None, None), d) == DateRange(Some(d), Some(d))
  {
  }

  /** Adding the same date twice is adding it once. */
  lemma WithDateIdempotent(r: DateRange, d: Date)
    ensures WithDate(WithDate(r, d), d) == WithDate(r, d)
  {
  }

  /** The order in which two dates are added does not matter. */
  lemma WithDateCommutes(r: DateRange, a: Date, b: Date)
    ensures WithDate(WithDate(r, a), b) == WithDate(WithDate(r, b), a)
  {
  }

  /** After adding dates, every one of them lies inside the range, and so do the old bounds. */
  lemma {:induction false} WithDatesCovers(r: DateRange, ds: seq<Date>)
    requires |ds| > 0
    ensures var s := WithDates(r, ds);
      s.lo.Some? && s.hi.Some? && s.lo.value <= s.hi.value &&
      (forall i :: 0 <= i < |ds| ==> s.lo.value <= ds[i] <= s.hi.value) &&
      (r.lo.Some? ==> s.lo.value <= r.lo.value) && (r.hi.Some? ==> r.hi.value <= s.hi.value)
  {
    var init := ds[..|ds| - 1];
    if |init| > 0 {
      WithDatesCovers(r, init);
      assert forall i :: 0 <= i < |init| ==> ds[i] == init[i];
    }
  }

  // ---------------------------------------------------------------------------------------
  // Reductions over lists of dates and numbers

  /** `ds.reduce((a, b) => (a < b ? a : b))`: the earliest date. */
  function Earliest(ds: seq<Date>): (e: Date)
    requires |ds| > 0
    ensures e in ds
    ensures forall i :: 0 <= i < |ds| ==> e <= ds[i]
  {
    if |ds| == 1 then ds[0]
    else
      var a := Earliest(ds[..|ds| - 1]);
      var b := ds[|ds| - 1];
      assert forall i :: 0 <= i < |ds| - 1 ==> ds[i] == ds[..|ds| - 1][i];
      if a < b then a else b
  }

  /**
   * The same comparator applied to possibly undefined dates: any comparison with `undefined`
   * is false, so the right-hand operand wins.
   */
  function EarlierOrRight(a: Option<Date>, b: Option<Date>): Option<Date> {
    if a.Some? && b.Some? && a.value < b.value then a else b
  }

  /** `ds.reduce((a, b) => (a < b ? a : b))` over possibly undefined dates. */
  function EarliestOrUndefined(ds: seq<Option<Date>>): Option<Date>
    requires |ds| > 0
  {
    if |ds| == 1 then ds[0]
    else EarlierOrRight(EarliestOrUndefined(ds[..|ds| - 1]), ds[|ds| - 1])
  }

  /** When every date is defined the reduction is the earliest of them. */
  lemma {:induction false} EarliestOrUndefinedAllDefined(ds: seq<Option<Date>>, vs: seq<Date>)
    requires |ds| > 0 && |ds| == |vs|
    requires forall i :: 0 <= i < |ds| ==> ds[i] == Some(vs[i])
    ensures EarliestOrUndefined(ds) == Some(Earliest(vs))
  {
    if |ds| > 1 {
      EarliestOrUndefinedAllDefined(ds[..|ds| - 1], vs[..|vs| - 1]);
    }
  }

  /** A trailing undefined date makes the whole reduction undefined. */
  lemma TrailingUndefinedWins(ds: seq<Option<Date>>)
    requires |ds| > 0 && ds[|ds| - 1].None?
    ensures EarliestOrUndefined(ds).None?
  {
  }

  function Sum(xs: seq<real>): real {
    if |xs| == 0 then 0.0 else Sum(xs[..|xs| - 1]) + xs[|xs| - 1]
  }

  function SumInts(xs: seq<int>): int {
    if |xs| == 0 then 0 else SumInts(xs[..|xs| - 1]) + xs[|xs| - 1]
  }

  /** `d3.mean(xs)`: undefined for an empty list, else the arithmetic mean. */
  function Mean(xs: seq<real>): (m: Option<real>)
    ensures m.None? <==> |xs| == 0
    ensures m.Some? ==> m.value * |xs| as real == Sum(xs)
  {
    if |xs| == 0 then None else Some(Sum(xs) / |xs| as real)
  }

  /** `xs.reduce((a, b, i) => (a * i + b) / (i + 1))`: the running mean, without a seed. */
  function RunningMean(xs: seq<real>): real
    requires |xs| > 0
  {
    if |xs| == 1 then xs[0]
    else (RunningMean(xs[..|xs| - 1]) * (|xs| - 1) as real + xs[|xs| - 1]) / |xs| as real
  }

  /** The running-mean reduction computes the arithmetic mean of a non-empty list. */
  lemma {:induction false} RunningMeanIsMean(xs: seq<real>)
    requires |xs| > 0
    ensures Mean(xs) == Some(RunningMean(xs))
  {
    if |xs| > 1 {
      var init := xs[..|xs| - 1];
      RunningMeanIsMean(init);
      var n := |init| as real;
      var last := xs[|xs| - 1];
      assert RunningMean(init) * n == Sum(init);
      assert Sum(xs) == Sum(init) + last;
      calc {
        RunningMean(xs);
        (RunningMean(init) * n + last) / (n + 1.0);
        (Sum(init) + last) / (n + 1.0);
        Sum(xs) / |xs| as real;
      }
    }
  }

  /** A mean of values in [lo, hi] lies in [lo, hi]. */
  lemma {:induction false} SumBounds(xs: seq<real>, lo: real, hi: real)
    requires forall i :: 0 <= i < |xs| ==> lo <= xs[i] <= hi
    ensures lo * |xs| as real <= Sum(xs) <= hi * |xs| as real
  {
    if |xs| > 0 {
      var init := xs[..|xs| - 1];
      SumBounds(init, lo, hi);
    }
  }

  lemma MeanBounds(xs: seq<real>, lo: real, hi: real)
    requires |xs| > 0
    requires forall i :: 0 <= i < |xs| ==> lo <= xs[i] <= hi
    ensures lo <= Mean(xs).value <= hi
  {
    SumBounds(xs, lo, hi);
    var n := |xs| as real;
    var m := Mean(xs).value;
    assert m * n == Sum(xs);
    assert lo * n <= m * n <= hi * n;
  }

  /** The millisecond fields of a list of dates, as numbers. */
  function MsFields(ds: seq<Date>): (r: seq<real>)
    ensures |r| == |ds|
    ensures forall i :: 0 <= i < |r| ==> r[i] == MsField(ds[i]) as real
  {
    if |ds| == 0 then [] else MsFields(ds[..|ds| - 1]) + [MsField(ds[|ds| - 1]) as real]
  }

  /** A mean of millisecond fields is a number of milliseconds within the first second of 1970. */
  lemma MsFieldMeanWithinOneSecond(ds: seq<Date>)
    requires |ds| > 0
    ensures 0 <= FromMillis(Mean(MsFields(ds)).value) < 1000
  {
    MeanBounds(MsFields(ds), 0.0, 999.0);
  }
}
