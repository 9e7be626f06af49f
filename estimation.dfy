/**
 * The date-inference rules: a family's marriage estimated from its members' births, the
 * fill-in of members whose dates are both unknown, a person's birth and death inferred from
 * lifespans and marriages, and the family name. Each rule is a function of the dates it reads;
 * the classes of the newest and the older TypeScript version are specified by these functions.
 */
module Estimation {
  import opened Wrappers
  import opened Dates
  import opened Lifespan
  import opened Document

  /** The date fields of a person that the rules read and write. */
  datatype Dated = Dated(birth: Option<Date>, birthIsEstimate: bool, death: Option<Date>, deathIsEstimate: bool)

  /** A flag is cleared only together with its date being set, as every person setup ensures. */
  predicate Consistent(d: Dated) {
    (!d.birthIsEstimate ==> d.birth.Some?) && (!d.deathIsEstimate ==> d.death.Some?)
  }

  /** A calendar in which adding no years changes nothing and adding is monotone in both arguments. */
  ghost predicate Monotone(cal: Calendar) {
    (forall d: Date :: cal.addYears(d, 0.0) == d) &&
    (forall d: Date, y1: real, y2: real :: y1 <= y2 ==> cal.addYears(d, y1) <= cal.addYears(d, y2)) &&
    (forall d1: Date, d2: Date, y: real :: d1 <= d2 ==> cal.addYears(d1, y) <= cal.addYears(d2, y))
  }

  // ---------------------------------------------------------------------------------------
  // Lists of births

  /** `filter((p) => !p.birthIsEstimate && p.birth).map((p) => p.birth!)`. */
  function DefiniteBirths(ps: seq<Dated>): (ds: seq<Date>)
    ensures |ds| <= |ps|
    ensures forall i :: 0 <= i < |ps| && !ps[i].birthIsEstimate && ps[i].birth.Some? ==> ps[i].birth.value in ds
    ensures |ds| == 0 <==> forall i :: 0 <= i < |ps| ==> ps[i].birthIsEstimate || ps[i].birth.None?
  {
    if |ps| == 0 then []
    else
      var init := DefiniteBirths(ps[..|ps| - 1]);
      var last := ps[|ps| - 1];
      assert forall i :: 0 <= i < |ps| - 1 ==> ps[..|ps| - 1][i] == ps[i];
      init + (if !last.birthIsEstimate && last.birth.Some? then [last.birth.value] else [])
  }

  /** `filter((p) => p.birth).map((p) => p.birth!)`: every known birth, definite or estimated. */
  function KnownBirths(ps: seq<Dated>): (ds: seq<Date>)
    ensures |ds| <= |ps|
    ensures forall i :: 0 <= i < |ps| && ps[i].birth.Some? ==> ps[i].birth.value in ds
    ensures |ds| == 0 <==> forall i :: 0 <= i < |ps| ==> ps[i].birth.None?
  {
    if |ps| == 0 then []
    else
      var init := KnownBirths(ps[..|ps| - 1]);
      var last := ps[|ps| - 1];
      assert forall i :: 0 <= i < |ps| - 1 ==> ps[..|ps| - 1][i] == ps[i];
      init + (if last.birth.Some? then [last.birth.value] else [])
  }

  /** `map((c) => c.birth)`: the births, undefined ones included. */
  function Births(ps: seq<Dated>): (bs: seq<Option<Date>>)
    ensures |bs| == |ps|
    ensures forall i :: 0 <= i < |ps| ==> bs[i] == ps[i].birth
  {
    if |ps| == 0 then [] else Births(ps[..|ps| - 1]) + [ps[|ps| - 1].birth]
  }

  /**
   * `filter((p) => !p.birthIsEstimate).map((p) => p.birth)`: the births of the people whose flag
   * is falsy, which in the older version may still be undefined.
   */
  function DefiniteSlots(ps: seq<Dated>): (bs: seq<Option<Date>>)
    ensures |bs| <= |ps|
    ensures |bs| == 0 <==> forall i :: 0 <= i < |ps| ==> ps[i].birthIsEstimate
    ensures None !in bs ==> |DefiniteBirths(ps)| == |bs|
  {
    if |ps| == 0 then []
    else
      var init := DefiniteSlots(ps[..|ps| - 1]);
      var last := ps[|ps| - 1];
      assert forall i :: 0 <= i < |ps| - 1 ==> ps[..|ps| - 1][i] == ps[i];
      init + (if !last.birthIsEstimate then [last.birth] else [])
  }

  /** With consistent flags the falsy-flag births are exactly the definite births. */
  lemma {:induction false} SlotsOfConsistent(ps: seq<Dated>)
    requires forall i :: 0 <= i < |ps| ==> Consistent(ps[i])
    ensures |DefiniteSlots(ps)| == |DefiniteBirths(ps)|
    ensures forall i :: 0 <= i < |DefiniteSlots(ps)| ==> DefiniteSlots(ps)[i] == Some(DefiniteBirths(ps)[i])
  {
    if |ps| > 0 {
      var init := ps[..|ps| - 1];
      assert forall i :: 0 <= i < |init| ==> init[i] == ps[i];
      SlotsOfConsistent(init);
    }
  }

  /** `moment(x)`: the given date, or the current time when `x` is undefined. */
  function OrNow(x: Option<Date>, now: Date): Date {
    if x.Some? then x.value else now
  }

  /** `new Date(dates.reduce((t, d) => t + d) / dates.length)`. */
  function CandidateMean(cs: seq<int>): Date
    requires |cs| > 0
  {
    Trunc(SumInts(cs) as real / |cs| as real)
  }

  lemma {:induction false} SumIntsBounds(cs: seq<int>, lo: int, hi: int)
    requires forall i :: 0 <= i < |cs| ==> lo <= cs[i] <= hi
    ensures lo * |cs| <= SumInts(cs) <= hi * |cs|
  {
    if |cs| > 0 {
      var init := cs[..|cs| - 1];
      assert forall i :: 0 <= i < |init| ==> init[i] == cs[i];
      SumIntsBounds(init, lo, hi);
    }
  }

  /** The averaged candidate lies between the smallest and the largest candidate. */
  lemma CandidateMeanBetween(cs: seq<int>, lo: int, hi: int)
    requires |cs| > 0
    requires forall i :: 0 <= i < |cs| ==> lo <= cs[i] <= hi
    ensures lo <= CandidateMean(cs) <= hi
  {
    SumIntsBounds(cs, lo, hi);
    CastProducts(lo, hi, |cs|);
    DivBounds(lo as real, SumInts(cs) as real, hi as real, |cs| as real);
    TruncBetween(SumInts(cs) as real / |cs| as real, lo, hi);
  }

  /** Proof helper: integer products cast to reals. */
  lemma CastProducts(lo: int, hi: int, n: nat)
    ensures (lo * n) as real == lo as real * n as real && (hi * n) as real == hi as real * n as real
  {
  }

  /** Proof helper: truncation stays between two integer bounds. */
  lemma TruncBetween(x: real, lo: int, hi: int)
    requires lo as real <= x <= hi as real
    ensures lo <= Trunc(x) <= hi
  {
  }

  /** Proof helper: dividing bounds by a positive count. */
  lemma DivBounds(a: real, s: real, b: real, n: real)
    requires n > 0.0 && a * n <= s <= b * n
    ensures a <= s / n <= b
  {
    assert s / n - a == (s - a * n) / n;
    assert b - s / n == (b * n - s) / n;
  }

  // ---------------------------------------------------------------------------------------
  // The marriage estimate of the newest version (src/models/Family.ts)

  /** `mean(...)` of the millisecond fields of the parents' definite births. */
  function ParentFieldMean(parents: seq<Dated>): Option<real> {
    Mean(MsFields(DefiniteBirths(parents)))
  }

  /** The candidates of the last tier: parents' mean field + 25 years, earliest known child birth − 2 years. */
  function Candidates(cal: Calendar, parents: seq<Dated>, children: seq<Dated>): (cs: seq<int>)
    ensures |cs| <= 2
    ensures |cs| == 0 <==> |KnownBirths(parents)| == 0 && |KnownBirths(children)| == 0
  {
    var pb, cb := KnownBirths(parents), KnownBirths(children);
    (if |pb| > 0 then [cal.addYears(FromMillis(RunningMean(MsFields(pb))), 25.0)] else [])
      + (if |cb| > 0 then [cal.addYears(Earliest(cb), -2.0)] else [])
  }

  /**
   * `Family.estimate`'s marriage: 2 years before the earliest definite child birth; else 25 years
   * after the mean millisecond field of the definite parent births, when that mean is truthy;
   * else the average of the candidates, throwing when there are none.
   */
  function MarriageEstimate(cal: Calendar, parents: seq<Dated>, children: seq<Dated>): (r: Result<Date>)
    ensures r.Err? <==> (|DefiniteBirths(children)| == 0 && ParentFieldMean(parents) in {None, Some(0.0)}
      && (forall i :: 0 <= i < |parents| ==> parents[i].birth.None?)
      && (forall i :: 0 <= i < |children| ==> children[i].birth.None?))
    ensures r.Err? ==> r.error == NoMarriageData
  {
    var definite := DefiniteBirths(children);
    var mean := ParentFieldMean(parents);
    if |definite| > 0 then Ok(cal.addYears(Earliest(definite), -2.0))
    else if mean.Some? && mean.value != 0.0 then Ok(cal.addYears(FromMillis(mean.value), 25.0))
    else
      var cs := Candidates(cal, parents, children);
      if |cs| == 0 then Err(NoMarriageData) else Ok(CandidateMean(cs))
  }

  /** With a definite child birth, the marriage is at least two years before every such birth. */
  lemma DefiniteChildBounds(cal: Calendar, parents: seq<Dated>, children: seq<Dated>, k: nat)
    requires Monotone(cal)
    requires k < |children| && !children[k].birthIsEstimate && children[k].birth.Some?
    ensures MarriageEstimate(cal, parents, children).Ok?
    ensures MarriageEstimate(cal, parents, children).value <= cal.addYears(children[k].birth.value, -2.0)
  {
    var ds := DefiniteBirths(children);
    assert children[k].birth.value in ds;
  }

  /**
   * The mean is taken over the 0-999 millisecond FIELDS, so the parent tier yields a date 25 years
   * after an instant in the first second of 1970, whatever the parents' birth years.
   */
  lemma ParentTierNearEpoch(cal: Calendar, parents: seq<Dated>, children: seq<Dated>)
    requires |DefiniteBirths(children)| == 0
    requires ParentFieldMean(parents).Some? && ParentFieldMean(parents).value != 0.0
    ensures 0 <= FromMillis(ParentFieldMean(parents).value) < 1000
    ensures MarriageEstimate(cal, parents, children) == Ok(cal.addYears(FromMillis(ParentFieldMean(parents).value), 25.0))
  {
    MsFieldMeanWithinOneSecond(DefiniteBirths(parents));
  }

  /**
   * Definite parent births that fall on whole seconds (every date parsed from a day) have a mean
   * field of 0, which is falsy: the parent tier is skipped and the candidate average is used.
   */
  lemma WholeSecondBirthsSkipParentTier(cal: Calendar, parents: seq<Dated>, children: seq<Dated>)
    requires |DefiniteBirths(children)| == 0
    requires forall i :: 0 <= i < |DefiniteBirths(parents)| ==> DefiniteBirths(parents)[i] % 1000 == 0
    requires |KnownBirths(parents)| + |KnownBirths(children)| > 0
    ensures MarriageEstimate(cal, parents, children) == Ok(CandidateMean(Candidates(cal, parents, children)))
  {
    WholeSecondsMeanFieldZero(DefiniteBirths(parents));
  }

  lemma WholeSecondsMeanFieldZero(ds: seq<Date>)
    requires forall i :: 0 <= i < |ds| ==> ds[i] % 1000 == 0
    ensures Mean(MsFields(ds)) in {None, Some(0.0)}
  {
    WholeSecondsSumZero(ds);
    var fs := MsFields(ds);
    if |fs| > 0 {
      var n := |fs| as real;
      ZeroOver(n);
      assert Mean(fs) == Some(0.0 / n);
    }
  }

  /** Proof helper: zero over a positive count. */
  lemma ZeroOver(n: real)
    requires n > 0.0
    ensures 0.0 / n == 0.0
  {
  }

  lemma {:induction false} WholeSecondsSumZero(ds: seq<Date>)
    requires forall i :: 0 <= i < |ds| ==> ds[i] % 1000 == 0
    ensures Sum(MsFields(ds)) == 0.0
  {
    if |ds| > 0 {
      var init := ds[..|ds| - 1];
      WholeSecondsSumZero(init);
      assert MsFields(ds) == MsFields(init) + [MsField(ds[|ds| - 1]) as real];
      assert MsFields(ds)[..|ds| - 1] == MsFields(init);
    }
  }

  /** In the last tier the marriage lies between the two candidates, or is the only one. */
  lemma FallbackBetweenCandidates(cal: Calendar, parents: seq<Dated>, children: seq<Dated>)
    requires |DefiniteBirths(children)| == 0 && ParentFieldMean(parents) in {None, Some(0.0)}
    requires |Candidates(cal, parents, children)| > 0
    ensures var cs := Candidates(cal, parents, children);
      var r := MarriageEstimate(cal, parents, children).value;
      (|cs| == 1 ==> r == cs[0]) && (|cs| == 2 ==> Min(cs[0], cs[1]) <= r <= Max(cs[0], cs[1]))
  {
    var cs := Candidates(cal, parents, children);
    assert MarriageEstimate(cal, parents, children) == Ok(CandidateMean(cs));
    CandidateMeanBetween(cs, Min(cs[0], cs[|cs| - 1]), Max(cs[0], cs[|cs| - 1]));
  }

  // ---------------------------------------------------------------------------------------
  // The marriage estimate of the older TypeScript version (src/ts/TreeNode.ts, src/ts/model/Family.ts)

  /** The candidates there: the children's earliest birth is reduced over ALL children. */
  function LegacyCandidates(cal: Calendar, now: Date, parents: seq<Dated>, children: seq<Dated>): (cs: seq<int>)
    ensures |cs| <= 2
    ensures |cs| == 0 <==> |KnownBirths(parents)| == 0 && |KnownBirths(children)| == 0
  {
    var pb := KnownBirths(parents);
    (if |pb| > 0 then [cal.addYears(FromMillis(RunningMean(MsFields(pb))), 25.0)] else [])
      + (if |KnownBirths(children)| > 0 then [cal.addYears(OrNow(EarliestOrUndefined(Births(children)), now), -2.0)] else [])
  }

  /**
   * The older marriage estimate: no truthiness test on the parent mean, an undefined definite parent
   * birth is a TypeError, and `moment(undefined)` is the current time.
   */
  function LegacyMarriageEstimate(cal: Calendar, now: Date, parents: seq<Dated>, children: seq<Dated>): (r: Result<Date>)
    ensures r.Err? && r.error == UndefinedValue <==>
      (forall i :: 0 <= i < |children| ==> children[i].birthIsEstimate) && None in DefiniteSlots(parents)
    ensures r.Err? && r.error == NoMarriageData <==>
      (forall i :: 0 <= i < |children| ==> children[i].birthIsEstimate)
      && (forall i :: 0 <= i < |parents| ==> parents[i].birthIsEstimate)
      && (forall i :: 0 <= i < |parents| ==> parents[i].birth.None?)
      && (forall i :: 0 <= i < |children| ==> children[i].birth.None?)
    ensures r.Err? ==> r.error in {UndefinedValue, NoMarriageData}
  {
    var childSlots := DefiniteSlots(children);
    var parentSlots := DefiniteSlots(parents);
    if |childSlots| > 0 then Ok(cal.addYears(OrNow(EarliestOrUndefined(childSlots), now), -2.0))
    else if |parentSlots| > 0 then
      if None in parentSlots then Err(UndefinedValue)
      else Ok(cal.addYears(FromMillis(RunningMean(MsFields(DefiniteBirths(parents)))), 25.0))
    else
      var cs := LegacyCandidates(cal, now, parents, children);
      if |cs| == 0 then Err(NoMarriageData) else Ok(CandidateMean(cs))
  }

  /** A last falsy-flag child without a birth wins the reduction: the marriage is two years before now. */
  lemma LegacyUndefinedChildBirthIsNow(cal: Calendar, now: Date, parents: seq<Dated>, children: seq<Dated>)
    requires |DefiniteSlots(children)| > 0 && DefiniteSlots(children)[|DefiniteSlots(children)| - 1].None?
    ensures LegacyMarriageEstimate(cal, now, parents, children) == Ok(cal.addYears(now, -2.0))
  {
    TrailingUndefinedWins(DefiniteSlots(children));
  }

  /** With consistent flags and a definite child birth, both versions estimate the same marriage. */
  lemma VersionsAgreeOnChildTier(cal: Calendar, now: Date, parents: seq<Dated>, children: seq<Dated>)
    requires forall i :: 0 <= i < |children| ==> Consistent(children[i])
    requires |DefiniteBirths(children)| > 0
    ensures LegacyMarriageEstimate(cal, now, parents, children) == MarriageEstimate(cal, parents, children)
  {
    SlotsOfConsistent(children);
    EarliestOrUndefinedAllDefined(DefiniteSlots(children), DefiniteBirths(children));
  }

  /**
   * With consistent flags, no definite child birth and a non-zero mean field, both versions use
   * the parent tier: the running-mean reduction is the mean.
   */
  lemma VersionsAgreeOnParentTier(cal: Calendar, now: Date, parents: seq<Dated>, children: seq<Dated>)
    requires forall i :: 0 <= i < |children| ==> Consistent(children[i])
    requires forall i :: 0 <= i < |parents| ==> Consistent(parents[i])
    requires |DefiniteBirths(children)| == 0
    requires ParentFieldMean(parents).Some? && ParentFieldMean(parents).value != 0.0
    ensures LegacyMarriageEstimate(cal, now, parents, children) == MarriageEstimate(cal, parents, children)
  {
    SlotsOfConsistent(children);
    SlotsOfConsistent(parents);
    RunningMeanIsMean(MsFields(DefiniteBirths(parents)));
  }

  // ---------------------------------------------------------------------------------------
  // A person's events (both versions)

  /**
   * The event loop of a person's setup: a Birth event sets the birth and clears its estimate
   * flag, a Death event the same for the death; any other event, or a missing one, is skipped.
   */
  function WithEvents(doc: Doc, refs: seq<Handle>, d: Dated): (r: Dated)
    ensures LastDate(doc, refs, "Birth").Some? ==> r.birth == LastDate(doc, refs, "Birth") && !r.birthIsEstimate
    ensures LastDate(doc, refs, "Birth").None? ==> r.birth == d.birth && r.birthIsEstimate == d.birthIsEstimate
    ensures LastDate(doc, refs, "Death").Some? ==> r.death == LastDate(doc, refs, "Death") && !r.deathIsEstimate
    ensures LastDate(doc, refs, "Death").None? ==> r.death == d.death && r.deathIsEstimate == d.deathIsEstimate
  {
    if |refs| == 0 then d
    else
      var r := WithEvents(doc, refs[..|refs| - 1], d);
      var last := refs[|refs| - 1];
      if IsEvent(doc, last, "Birth") then r.(birth := Some(doc.events[last].date), birthIsEstimate := false)
      else if IsEvent(doc, last, "Death") then r.(death := Some(doc.events[last].date), deathIsEstimate := false)
      else r
  }

  /** The event loop clears a flag only where it sets the date: consistent dates stay consistent. */
  lemma WithEventsKeepsConsistent(doc: Doc, refs: seq<Handle>, d: Dated)
    requires Consistent(d)
    ensures Consistent(WithEvents(doc, refs, d))
  {
  }

  /** One more event: the loop's two accumulations each take one step. */
  lemma EventStep(doc: Doc, refs: seq<Handle>, i: nat, d0: Dated)
    requires i < |refs|
    ensures var r := refs[i];
      var ds := DatesOf(doc, refs[..i], {"Birth", "Death"});
      var d := WithEvents(doc, refs[..i], d0);
      (IsEvent(doc, r, "Birth") ==>
        DatesOf(doc, refs[..i + 1], {"Birth", "Death"}) == ds + [doc.events[r].date] &&
        WithEvents(doc, refs[..i + 1], d0) == d.(birth := Some(doc.events[r].date), birthIsEstimate := false)) &&
      (!IsEvent(doc, r, "Birth") && IsEvent(doc, r, "Death") ==>
        DatesOf(doc, refs[..i + 1], {"Birth", "Death"}) == ds + [doc.events[r].date] &&
        WithEvents(doc, refs[..i + 1], d0) == d.(death := Some(doc.events[r].date), deathIsEstimate := false)) &&
      (!IsEvent(doc, r, "Birth") && !IsEvent(doc, r, "Death") ==>
        DatesOf(doc, refs[..i + 1], {"Birth", "Death"}) == ds && WithEvents(doc, refs[..i + 1], d0) == d)
  {
    assert refs[..i + 1][..i] == refs[..i];
  }

  // ---------------------------------------------------------------------------------------
  // Fill-in of members whose birth and death are both estimated (both versions)

  /** `marriage − 25 years`: a parent's filled-in birth. */
  function ParentBirth(cal: Calendar, marriage: Date): Date {
    cal.addYears(marriage, -25.0)
  }

  /** `marriage + (2 + 2i) years`: the filled-in birth of the `i`-th child with both dates estimated. */
  function ChildBirth(cal: Calendar, marriage: Date, i: nat): Date {
    cal.addYears(marriage, (2 + 2 * i) as real)
  }

  /** `birth + estimateLifespan(birth)` years: the filled-in death. */
  function DeathAfter(cal: Calendar, v: Version, birth: Date): Date {
    cal.addYears(birth, FromBirthYear(v, cal.utcYear(birth) as real))
  }

  /** Filled-in parents are born before the marriage and filled-in children after it, two years apart. */
  lemma FillInOrder(cal: Calendar, marriage: Date, i: nat, j: nat)
    requires Monotone(cal) && i <= j
    ensures ParentBirth(cal, marriage) <= marriage <= ChildBirth(cal, marriage, i) <= ChildBirth(cal, marriage, j)
  {
    assert cal.addYears(marriage, 0.0) == marriage;
  }

  /** A filled-in death is no earlier than its birth for anyone born from 1604 on, where the lifespan is positive. */
  lemma DeathNotBeforeBirth(cal: Calendar, v: Version, birth: Date)
    requires Monotone(cal) && cal.utcYear(birth) >= 1604
    ensures birth <= DeathAfter(cal, v, birth)
  {
    BirthScale(v, cal.utcYear(birth) as real);
    assert cal.addYears(birth, 0.0) == birth;
  }

  // ---------------------------------------------------------------------------------------
  // A person's own estimate in the newest version (src/models/Person.ts)

  /** `estimateLifespan(undefined, new Date())`: the death-based lifespan read at the current year. */
  function LifespanNow(cal: Calendar, v: Version, now: Date): real {
    FromDeathYear(v, cal.utcYear(now) as real)
  }

  /**
   * `Person.estimate`. `parentIn` / `childOf` are the definite marriages of the person's own and
   * parents' family (None when there is no family or its marriage is an estimate). The threshold
   * is `estimateLifespan(undefined, now) ?? 0 * 1.5`, which by precedence is the lifespan alone.
   */
  function EstimatePerson(cal: Calendar, now: Date, d: Dated, parentIn: Option<Date>, childOf: Option<Date>): (r: Dated)
    ensures r.birthIsEstimate == d.birthIsEstimate && r.deathIsEstimate == d.deathIsEstimate
    ensures d.birth.Some? ==> r.birth.Some?
    ensures r.death.Some? <==> (d.death.Some? || (d.birth.Some? && d.deathIsEstimate &&
      cal.yearsBetween(d.birth.value, now) > LifespanNow(cal, Newest, now)))
  {
    var step1: (Option<Date>, Option<Date>) :=
      if d.birth.Some? && d.deathIsEstimate then
        (d.birth,
         if cal.yearsBetween(d.birth.value, now) > LifespanNow(cal, Newest, now)
         then Some(DeathAfter(cal, Newest, d.birth.value)) else d.death)
      else if d.death.Some? && d.birthIsEstimate then
        (Some(cal.addYears(d.death.value, -FromDeathYear(Newest, cal.utcYear(d.death.value) as real))), d.death)
      else (d.birth, d.death);
    var (b1, d1) := step1;
    var b2 := if b1.None? && parentIn.Some? then Some(cal.addYears(parentIn.value, -20.0)) else b1;
    var b3 := if childOf.Some? && d.birthIsEstimate && (b2.None? || b2.value < childOf.value)
      then Some(cal.addYears(childOf.value, 1.0)) else b2;
    Dated(b3, d.birthIsEstimate, d1, d.deathIsEstimate)
  }

  /** A definite birth or death is never reassigned. */
  lemma EstimateKeepsDefinite(cal: Calendar, now: Date, d: Dated, parentIn: Option<Date>, childOf: Option<Date>)
    requires Consistent(d)
    ensures var r := EstimatePerson(cal, now, d, parentIn, childOf);
      (!d.birthIsEstimate ==> r.birth == d.birth) && (!d.deathIsEstimate ==> r.death == d.death) && Consistent(r)
  {
  }

  /**
   * The ×1.5 of the intended threshold is lost: someone older than the lifespan but younger than
   * 1.5 times it still gets an estimated death.
   */
  lemma ThresholdIgnoresFactor(cal: Calendar, now: Date, d: Dated, parentIn: Option<Date>, childOf: Option<Date>)
    requires d.birth.Some? && d.deathIsEstimate
    requires var l := LifespanNow(cal, Newest, now);
      l > 0.0 && l < cal.yearsBetween(d.birth.value, now) <= 1.5 * l
    ensures EstimatePerson(cal, now, d, parentIn, childOf).death == Some(DeathAfter(cal, Newest, d.birth.value))
  {
  }

  /** Without a birth, a definite marriage of the person's own family places the birth 20 years earlier. */
  lemma BirthFromOwnMarriage(cal: Calendar, now: Date, d: Dated, m: Date)
    requires d.birth.None? && (d.death.None? || !d.birthIsEstimate)
    ensures EstimatePerson(cal, now, d, Some(m), None).birth == Some(cal.addYears(m, -20.0))
  {
  }

  /**
   * With a definite marriage of the parents, an estimated birth ends up defined and no earlier
   * than that marriage; an earlier or missing one becomes the marriage plus one year.
   */
  lemma BornAfterParentsMarriage(cal: Calendar, now: Date, d: Dated, parentIn: Option<Date>, m: Date)
    requires Monotone(cal) && d.birthIsEstimate
    ensures var r := EstimatePerson(cal, now, d, parentIn, Some(m));
      r.birth.Some? && m <= r.birth.value
  {
    assert cal.addYears(m, 0.0) == m;
  }

  // ---------------------------------------------------------------------------------------
  // A person's inference in the older TypeScript version (src/ts/TreeNode.ts, src/ts/model/Person.ts)

  /** The inferred dates, and whether the tree's upper date bound is moved to now (a living person). */
  datatype Inferred = Inferred(birth: Option<Date>, death: Option<Date>, living: bool)

  /**
   * The post-event inference of the older `Person.setup`. The age is `moment().diff(birth, 'year')`,
   * truncated; the lifespan is passed to `add` / `subtract` as a bare number: milliseconds.
   */
  function LegacyInfer(cal: Calendar, now: Date, d: Dated): (r: Inferred)
    requires Consistent(d)
    ensures r.living ==> !d.birthIsEstimate && d.deathIsEstimate && r.death == d.death
    ensures !d.birthIsEstimate ==> r.birth == d.birth
    ensures !d.deathIsEstimate ==> r.death == d.death
  {
    if !d.birthIsEstimate && d.deathIsEstimate then
      if Trunc(cal.yearsBetween(d.birth.value, now)) as real > LifespanNow(cal, Legacy, now) * 1.5 then
        Inferred(d.birth, Some(AddMillis(d.birth.value, FromBirthYear(Legacy, cal.utcYear(d.birth.value) as real))), false)
      else Inferred(d.birth, d.death, true)
    else if d.birthIsEstimate && !d.deathIsEstimate then
      Inferred(Some(AddMillis(d.death.value, -FromDeathYear(Legacy, cal.utcYear(d.death.value) as real))), d.death, false)
    else Inferred(d.birth, d.death, false)
  }

  /** An inferred death lies within one millisecond of `birth + lifespan` MILLISECONDS, not years. */
  lemma InferredDeathInMilliseconds(cal: Calendar, now: Date, d: Dated)
    requires Consistent(d) && !d.birthIsEstimate && d.deathIsEstimate
    requires Trunc(cal.yearsBetween(d.birth.value, now)) as real > LifespanNow(cal, Legacy, now) * 1.5
    ensures var r := LegacyInfer(cal, now, d);
      var l := FromBirthYear(Legacy, cal.utcYear(d.birth.value) as real);
      -1.0 < (r.death.value - d.birth.value) as real - l < 1.0
  {
  }

  /** An inferred birth lies within one millisecond of `death − lifespan` milliseconds. */
  lemma InferredBirthInMilliseconds(cal: Calendar, now: Date, d: Dated)
    requires Consistent(d) && d.birthIsEstimate && !d.deathIsEstimate
    ensures var r := LegacyInfer(cal, now, d);
      var l := FromDeathYear(Legacy, cal.utcYear(d.death.value) as real);
      r.birth.Some? && -1.0 < (d.death.value - r.birth.value) as real - l < 1.0
  {
  }

  /** A definite birth whose truncated age is at most 1.5 lifespans is a living person: no death is set. */
  lemma YoungDefiniteBirthIsLiving(cal: Calendar, now: Date, d: Dated)
    requires Consistent(d) && !d.birthIsEstimate && d.deathIsEstimate
    requires Trunc(cal.yearsBetween(d.birth.value, now)) as real <= LifespanNow(cal, Legacy, now) * 1.5
    ensures LegacyInfer(cal, now, d) == Inferred(d.birth, d.death, true)
  {
  }

  // ---------------------------------------------------------------------------------------
  // Family name

  predicate IsTaken(n: Surname) {
    n.derivation == Some("Taken")
  }

  /** `surnames.find((n) => n.derivation === 'Taken')?.name`. */
  function TakenName(ns: seq<Surname>): (r: Option<string>)
    ensures r.None? <==> forall k :: 0 <= k < |ns| ==> !IsTaken(ns[k])
    ensures r.Some? ==> exists k :: (0 <= k < |ns| && IsTaken(ns[k]) && ns[k].name == r.value &&
      forall j :: 0 <= j < k ==> !IsTaken(ns[j]))
  {
    if |ns| == 0 then None
    else if IsTaken(ns[0]) then Some(ns[0].name)
    else
      var r := TakenName(ns[1..]);
      assert forall k :: 0 <= k < |ns| - 1 ==> ns[1..][k] == ns[k + 1];
      assert r.Some? ==> exists k :: (0 <= k < |ns| && IsTaken(ns[k]) && ns[k].name == r.value &&
        forall j :: 0 <= j < k ==> !IsTaken(ns[j])) by {
        if r.Some? {
          var k :| 0 <= k < |ns| - 1 && IsTaken(ns[1..][k]) && ns[1..][k].name == r.value &&
            forall j :: 0 <= j < k ==> !IsTaken(ns[1..][j]);
          assert IsTaken(ns[k + 1]) && forall j :: 0 <= j < k + 1 ==> !IsTaken(ns[j]);
        }
      }
      r
  }

  /** No parent before index `i` has a 'Taken' surname. */
  predicate NoTakenBefore(parents: seq<seq<Surname>>, i: nat)
    requires i <= |parents|
  {
    forall j :: 0 <= j < i ==> TakenName(parents[j]).None?
  }

  /** `parents.map((p) => TakenName(p.surnames)).find((n) => n !== undefined)`. */
  function FirstTakenName(parents: seq<seq<Surname>>): (r: Option<string>)
    ensures r.None? <==> NoTakenBefore(parents, |parents|)
    ensures forall i :: 0 <= i < |parents| && TakenName(parents[i]).Some? && NoTakenBefore(parents, i) ==>
      r == TakenName(parents[i])
  {
    if |parents| == 0 then None
    else if TakenName(parents[0]).Some? then TakenName(parents[0])
    else
      var tail := parents[1..];
      var r := FirstTakenName(tail);
      forall i | 1 <= i <= |parents|
        ensures NoTakenBefore(parents, i) <==> NoTakenBefore(tail, i - 1)
      {
        assert forall j :: 0 <= j < i - 1 ==> tail[j] == parents[j + 1];
      }
      r
  }

  /** The newest family name: the first parent's first 'Taken' surname, else 'Unknown'. */
  function FamilyName(parents: seq<seq<Surname>>): (r: string)
    ensures NoTakenBefore(parents, |parents|) ==> r == "Unknown"
    ensures forall i :: 0 <= i < |parents| && TakenName(parents[i]).Some? && NoTakenBefore(parents, i) ==>
      r == TakenName(parents[i]).value
  {
    var n := FirstTakenName(parents);
    if n.Some? then n.value else "Unknown"
  }

  /** The surnames of parents whose surnames are all defined. */
  function Defined(ps: seq<Option<seq<Surname>>>): (r: seq<seq<Surname>>)
    requires forall i :: 0 <= i < |ps| ==> ps[i].Some?
    ensures |r| == |ps| && forall i :: 0 <= i < |ps| ==> r[i] == ps[i].value
  {
    if |ps| == 0 then [] else Defined(ps[..|ps| - 1]) + [ps[|ps| - 1].value]
  }

  /**
   * The older family name: `p.surnames.find` on a parent that was never set up (surnames undefined)
   * is a TypeError, and with no 'Taken' surname the name stays undefined.
   */
  function LegacyFamilyName(parents: seq<Option<seq<Surname>>>): (r: Result<Option<string>>)
    ensures r.Err? <==> exists i :: 0 <= i < |parents| && parents[i].None?
    ensures r.Err? ==> r.error == UndefinedValue
  {
    if exists i :: 0 <= i < |parents| && parents[i].None? then Err(UndefinedValue)
    else Ok(FirstTakenName(Defined(parents)))
  }

  /** Where the older version finds a name the newest finds the same; where it finds none, 'Unknown'. */
  lemma NameVersionsAgree(parents: seq<Option<seq<Surname>>>)
    requires forall i :: 0 <= i < |parents| ==> parents[i].Some?
    ensures LegacyFamilyName(parents).Ok?
    ensures var n := LegacyFamilyName(parents).value;
      FamilyName(Defined(parents)) == if n.Some? then n.value else "Unknown"
  {
  }
}
