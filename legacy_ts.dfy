/**
 * The older TypeScript model builder (src/ts/Data.ts with src/ts/TreeNode.ts; src/ts/model/Person.ts,
 * Family.ts and TreeNode.ts hold the same Person and Family code split into files). A `Data`
 * object walks the genealogy document family by family from the root family, carrying for each
 * queued family a level and a sort list (the path of relations the graph orders each level by).
 *
 * Declared class fields without an initialiser are not own properties until assigned (the
 * TypeScript compiler's classic class-field semantics), so `hasOwnProperty('level')` is
 * `level.Some?` and `hasOwnProperty('childOf')` is `childOf != null`. An undefined boolean is
 * falsy wherever it is read, so `complete` and the estimate flags start false; an undefined
 * gender compares unequal to `Male`, as `Female` does.
 */
module LegacyTs {
  import opened Wrappers
  import opened JsArrays
  import opened Dates
  import opened Document
  import opened Lifespan
  import opened Layout
  import opened Levels
  import opened Sorting
  import opened Estimation
  import OrderedMap

  // =========================================================================================
  // Tree (src/ts/Data.ts)

  /** A link drawn by the graph: parent to family, or family to child. */
  datatype Link = ParentLink(parent: Person, family: Family) | ChildLink(family: Family, child: Person)

  class Tree {
    var people: map<Handle, Person>
    var families: map<Handle, Family>
    var links: seq<Link>
    var levels: map<int, seq<Person>>
    var maxLevel: int
    var dateRange: DateRange

    constructor ()
      ensures people == map[] && families == map[] && links == [] && levels == map[]
      ensures maxLevel == 0 && dateRange == DateRange(None, None)
    {
      people, families, links, levels := map[], map[], [], map[];
      maxLevel, dateRange := 0, DateRange(None, None);
    }

    /** `addToLevel(person, level)`. */
    method AddToLevel(person: Person, level: int)
      modifies this`levels, person`level
      ensures levels == old(levels)[level := AddedToLevel(LevelList(old(levels), level), person, old(person.level), level)]
      ensures person.level == Some(level)
    {
      if level !in levels {
        levels := levels[level := []];
      }
      var list := levels[level];
      if person.level.Some? && person.level.value != 0 && person.level.value != level {
        list := SpliceFrom(list, IndexOf(list, person));
      }
      levels := levels[level := list + [person]];
      person.level := Some(level);
    }

    /** `addToDateRange(d)`. */
    method AddToDateRange(d: Date)
      modifies this`dateRange
      ensures dateRange == WithDate(old(dateRange), d)
    {
      var lo := d;
      if dateRange.lo.Some? {
        lo := Min(dateRange.lo.value, d);
      }
      var hi := d;
      if dateRange.hi.Some? {
        hi := Max(dateRange.hi.value, d);
      }
      dateRange := DateRange(Some(lo), Some(hi));
    }
  }

  // =========================================================================================
  // Person (src/ts/TreeNode.ts, src/ts/model/Person.ts)

  class Person {
    const handle: Handle
    var level: Option<int>
    var complete: bool
    var angle: real
    var gender: Gender
    var parentIn: Family?
    var childOf: Family?
    var birth: Option<Date>
    var birthIsEstimate: bool
    var death: Option<Date>
    var deathIsEstimate: bool
    var firstName: Option<string>
    var surnames: Option<seq<Surname>>
    var sortList: seq<SortItem>

    /** The date fields, as the estimation rules see them. */
    function Dates(): Dated
      reads this`birth, this`birthIsEstimate, this`death, this`deathIsEstimate
    {
      Dated(birth, birthIsEstimate, death, deathIsEstimate)
    }

    /** The fields of an object nothing has set up: every one undefined (falsy). */
    predicate Bare()
      reads this
    {
      level.None? && !complete && angle == 0.0 && gender == Female && parentIn == null && childOf == null &&
      Dates() == Dated(None, false, None, false) && firstName.None? && surnames.None? && sortList == []
    }

    /** `super(handle)`: the handle, and nothing else defined yet. */
    constructor (handle: Handle)
      ensures this.handle == handle && Bare()
    {
      this.handle := handle;
      level, complete, angle, gender := None, false, 0.0, Female;
      parentIn, childOf := null, null;
      birth, birthIsEstimate, death, deathIsEstimate := None, false, None, false;
      firstName, surnames, sortList := None, None, [];
    }

    /** Each of the person's families is known, registered, and one the walk can meet. */
    ghost predicate LinksValid(data: Data)
      reads this`parentIn, this`childOf, data`familyObjects, data`universe, data.tree`families
    {
      (parentIn != null ==> parentIn in data.familyObjects && data.Meets(parentIn.handle)) &&
      (childOf != null ==> childOf in data.familyObjects && data.Meets(childOf.handle))
    }

    /** The families `setup` links for the record: registered under the handles it names. */
    ghost predicate Linked(data: Data, rec: PersonRecord, in0: Family?, of0: Family?)
      reads this`parentIn, this`childOf, data.tree`families
    {
      LinkedTo(data, rec.parentIn, parentIn, in0) && LinkedTo(data, rec.childOf, childOf, of0)
    }

    /**
     * What `setup` leaves of the record `rec` before it reads the names, given the dates `d0` and
     * the families `in0` / `of0` it found: gender, families, and the dates the events and the
     * lifespan rules give.
     */
    ghost predicate Loaded(data: Data, rec: PersonRecord, d0: Dated, in0: Family?, of0: Family?)
      reads this, data.tree`families
    {
      gender == GenderOf(rec.gender) && Linked(data, rec, in0, of0) && DatesLoaded(data, rec, d0)
    }

    /** The dates the events of `rec` and then the lifespan rules give, from the dates `d0`. */
    ghost predicate DatesLoaded(data: Data, rec: PersonRecord, d0: Dated)
      reads this`birth, this`birthIsEstimate, this`death, this`deathIsEstimate
    {
      var d := EventDates(data.doc, rec.eventRefs, d0);
      var inf := LegacyInfer(data.cal, data.now, d);
      Dates() == Dated(inf.birth, d.birthIsEstimate, inf.death, d.deathIsEstimate)
    }

    /**
     * The names, read last: a record without a first name throws (`.node().innerHTML` of
     * nothing) and leaves both names as they were (`f0`, `s0`).
     */
    ghost predicate Named(rec: PersonRecord, out: Outcome, f0: Option<string>, s0: Option<seq<Surname>>)
      reads this`firstName, this`surnames
    {
      if rec.firstName.None? then out == Fail(UndefinedValue) && firstName == f0 && surnames == s0
      else out == Pass && firstName == rec.firstName && surnames == Some(rec.surnames)
    }

    /**
     * `new Person(handle, data)`: a handle seen for the first time is registered and set up (see
     * `Setup` for what that reads); a registered handle gives an object that is neither
     * registered nor set up.
     */
    static method New(handle: Handle, data: Data) returns (p: Person, out: Outcome)
      requires data.Valid() && data.Closed()
      modifies data.tree`people, data.tree`families, data.tree`dateRange, data`persons, data`familyObjects
      ensures fresh(p) && p.handle == handle
      ensures data.Valid() && data.persons == old(data.persons) + {p}
      ensures data.Grows(old(data.tree.families), old(data.familyObjects))
      ensures fresh(data.familyObjects - old(data.familyObjects)) && data.PeopleGrow(old(data.tree.people))
      ensures out.Fail? ==> out == Fail(UndefinedValue)
      ensures handle in old(data.tree.people) ==> out == Pass && p.Bare() && unchanged(data.tree)
      ensures handle !in old(data.tree.people) ==>
        p.complete && data.tree.people == old(data.tree.people)[handle := p] &&
        p.level.None? && p.angle == 0.0 && p.sortList == []
    {
      p := new Person(handle);
      data.persons := data.persons + {p};
      assert p.LinksValid(data);
      if handle in data.tree.people {
        // "Trying to add the same person twice!"
        return p, Pass;
      }
      out := p.Register(data);
    }

    /** `tree.people[handle] = this`, then `setup(data)`. */
    method Register(data: Data) returns (out: Outcome)
      requires data.Valid() && data.Closed() && this in data.persons && handle !in data.tree.people
      modifies this`complete, this`gender, this`parentIn, this`childOf, this`birth, this`birthIsEstimate,
        this`death, this`deathIsEstimate, this`firstName, this`surnames
      modifies data.tree`people, data.tree`families, data.tree`dateRange, data`familyObjects
      ensures data.Valid() && complete && data.tree.people == old(data.tree.people)[handle := this]
      ensures data.Grows(old(data.tree.families), old(data.familyObjects))
      ensures fresh(data.familyObjects - old(data.familyObjects))
      ensures out.Fail? ==> out == Fail(UndefinedValue)
    {
      data.tree.people := data.tree.people[handle := this];
      out := Setup(data);
    }

    /** `setup(data)`: read the person's record; a missing record only marks it complete. */
    method Setup(data: Data) returns (out: Outcome)
      requires data.Valid() && data.Closed() && this in data.persons
      modifies this`complete, this`gender, this`parentIn, this`childOf, this`birth, this`birthIsEstimate,
        this`death, this`deathIsEstimate, this`firstName, this`surnames
      modifies data.tree`families, data.tree`dateRange, data`familyObjects
      ensures data.Valid() && complete
      ensures data.Grows(old(data.tree.families), old(data.familyObjects))
      ensures fresh(data.familyObjects - old(data.familyObjects))
      ensures out.Fail? ==> out == Fail(UndefinedValue)
      ensures handle !in data.doc.people ==>
        out == Pass && unchanged(data.tree) && gender == old(gender) && parentIn == old(parentIn) &&
        childOf == old(childOf) && Dates() == old(Dates()) && firstName == old(firstName) && surnames == old(surnames)
      ensures handle in data.doc.people ==>
        var rec := data.doc.people[handle];
        Loaded(data, rec, old(Dates()), old(parentIn), old(childOf)) && Named(rec, out, old(firstName), old(surnames)) &&
        data.tree.dateRange == RangeAfter(old(data.tree.dateRange), data.doc, data.cal, data.now, rec.eventRefs)
    {
      complete := true;
      if handle !in data.doc.people {
        return Pass;   // "Empty Person handle"
      }
      var rec := data.doc.people[handle];
      assert rec in data.doc.people.Values;
      out := Read(data, rec);
    }

    /** The record's reading once `complete` is set: gender, families, then `Load`. */
    method Read(data: Data, rec: PersonRecord) returns (out: Outcome)
      requires data.Valid() && data.Closed() && this in data.persons && rec in data.doc.people.Values
      modifies this`gender, this`parentIn, this`childOf, this`birth, this`birthIsEstimate,
        this`death, this`deathIsEstimate, this`firstName, this`surnames
      modifies data.tree`families, data.tree`dateRange, data`familyObjects
      ensures data.Valid()
      ensures data.Grows(old(data.tree.families), old(data.familyObjects))
      ensures fresh(data.familyObjects - old(data.familyObjects))
      ensures out.Fail? ==> out == Fail(UndefinedValue)
      ensures Loaded(data, rec, old(Dates()), old(parentIn), old(childOf)) && Named(rec, out, old(firstName), old(surnames))
      ensures data.tree.dateRange == RangeAfter(old(data.tree.dateRange), data.doc, data.cal, data.now, rec.eventRefs)
    {
      Identify(data, rec);
      out := Load(data, rec);
    }

    /** The gender, then the families. */
    method Identify(data: Data, rec: PersonRecord)
      requires data.Valid() && data.Closed() && this in data.persons && rec in data.doc.people.Values
      modifies this`gender, this`parentIn, this`childOf, data.tree`families, data`familyObjects
      ensures data.Valid() && data.Grows(old(data.tree.families), old(data.familyObjects))
      ensures fresh(data.familyObjects - old(data.familyObjects))
      ensures gender == GenderOf(rec.gender) && Linked(data, rec, old(parentIn), old(childOf))
    {
      gender := GenderOf(rec.gender);
      LinkFamilies(data, rec);
    }

    /** `if (!person.complete) person.setup(data)`, as the walk does for every member it places. */
    method SetUpOnce(data: Data) returns (out: Outcome)
      requires data.Valid() && data.Closed() && this in data.persons
      modifies this`complete, this`gender, this`parentIn, this`childOf, this`birth, this`birthIsEstimate,
        this`death, this`deathIsEstimate, this`firstName, this`surnames
      modifies data.tree`families, data.tree`dateRange, data`familyObjects
      ensures data.Valid() && complete
      ensures data.Grows(old(data.tree.families), old(data.familyObjects))
      ensures fresh(data.familyObjects - old(data.familyObjects))
      ensures out.Fail? ==> out == Fail(UndefinedValue)
      ensures old(complete) ==> out == Pass && gender == old(gender)
    {
      out := Pass;
      if !complete {
        out := Setup(data);
      }
    }

    /**
     * The rest of `setup` once gender and families are set: both estimate flags set, the
     * events, the lifespan inference, then the names.
     */
    method Load(data: Data, rec: PersonRecord) returns (out: Outcome)
      modifies this`birth, this`birthIsEstimate, this`death, this`deathIsEstimate, this`firstName, this`surnames
      modifies data.tree`dateRange
      ensures DatesLoaded(data, rec, old(Dates()))
      ensures data.tree.dateRange == RangeAfter(old(data.tree.dateRange), data.doc, data.cal, data.now, rec.eventRefs)
      ensures Named(rec, out, old(firstName), old(surnames))
    {
      deathIsEstimate, birthIsEstimate := true, true;
      ReadEvents(data, rec.eventRefs);
      Infer(data.tree, data.cal, data.now);
      out := ReadName(rec);
    }

    /** The `parentin` / `childof` part of `setup`: the registered family, else a new reference. */
    method LinkFamilies(data: Data, rec: PersonRecord)
      requires data.Valid() && data.Closed() && this in data.persons && rec in data.doc.people.Values
      modifies this`parentIn, this`childOf, data.tree`families, data`familyObjects
      ensures data.Valid() && data.Grows(old(data.tree.families), old(data.familyObjects))
      ensures fresh(data.familyObjects - old(data.familyObjects))
      ensures Linked(data, rec, old(parentIn), old(childOf))
    {
      LinkParentIn(data, rec.parentIn);
      LinkChildOf(data, rec.childOf);
      assert LinkedTo(data, rec.parentIn, parentIn, old(parentIn));
    }

    /** `parentin`: the family the person is a parent in, registered or a new reference. */
    method LinkParentIn(data: Data, named: Option<Handle>)
      requires data.Valid() && this in data.persons && (named.Some? ==> named.value in data.universe)
      modifies this`parentIn, data.tree`families, data`familyObjects
      ensures data.Valid() && data.Grows(old(data.tree.families), old(data.familyObjects))
      ensures fresh(data.familyObjects - old(data.familyObjects))
      ensures LinkedTo(data, named, parentIn, old(parentIn))
    {
      if named.Some? {
        var f := data.FamilyFor(named.value);
        SetParentIn(data, f);
      }
    }

    /** `childof`: the family the person is a child of, registered or a new reference. */
    method LinkChildOf(data: Data, named: Option<Handle>)
      requires data.Valid() && this in data.persons && (named.Some? ==> named.value in data.universe)
      modifies this`childOf, data.tree`families, data`familyObjects
      ensures data.Valid() && data.Grows(old(data.tree.families), old(data.familyObjects))
      ensures fresh(data.familyObjects - old(data.familyObjects))
      ensures LinkedTo(data, named, childOf, old(childOf))
    {
      if named.Some? {
        var f := data.FamilyFor(named.value);
        SetChildOf(data, f);
      }
    }

    method SetParentIn(data: Data, f: Family)
      requires data.PersonsValid() && this in data.persons && f in data.familyObjects && data.Meets(f.handle)
      modifies this`parentIn
      ensures data.PersonsValid() && parentIn == f
    {
      parentIn := f;
      assert LinksValid(data);
    }

    method SetChildOf(data: Data, f: Family)
      requires data.PersonsValid() && this in data.persons && f in data.familyObjects && data.Meets(f.handle)
      modifies this`childOf
      ensures data.PersonsValid() && childOf == f
    {
      childOf := f;
      assert LinksValid(data);
    }

    /** The `eventref` loop of `setup`. */
    method ReadEvents(data: Data, refs: seq<Handle>)
      modifies this`birth, this`birthIsEstimate, this`death, this`deathIsEstimate, data.tree`dateRange
      ensures Dates() == WithEvents(data.doc, refs, old(Dates()))
      ensures data.tree.dateRange == WithDates(old(data.tree.dateRange), DatesOf(data.doc, refs, {"Birth", "Death"}))
    {
      ghost var d0, r0 := Dates(), data.tree.dateRange;
      for i := 0 to |refs|
        invariant Dates() == WithEvents(data.doc, refs[..i], d0)
        invariant data.tree.dateRange == WithDates(r0, DatesOf(data.doc, refs[..i], {"Birth", "Death"}))
      {
        var r := refs[i];
        EventStep(data.doc, refs, i, d0);
        if IsEvent(data.doc, r, "Birth") || IsEvent(data.doc, r, "Death") {
          WithDatesSnoc(r0, DatesOf(data.doc, refs[..i], {"Birth", "Death"}), data.doc.events[r].date);
        }
        ReadEvent(data.doc, data.tree, r);
      }
      assert refs[..|refs|] == refs;
    }

    /** One event of the record: a birth or death event sets that date as definite and widens the range. */
    method ReadEvent(doc: Doc, tree: Tree, r: Handle)
      modifies this`birth, this`birthIsEstimate, this`death, this`deathIsEstimate, tree`dateRange
      ensures IsEvent(doc, r, "Birth") ==>
        Dates() == old(Dates()).(birth := Some(doc.events[r].date), birthIsEstimate := false) &&
        tree.dateRange == WithDate(old(tree.dateRange), doc.events[r].date)
      ensures !IsEvent(doc, r, "Birth") && IsEvent(doc, r, "Death") ==>
        Dates() == old(Dates()).(death := Some(doc.events[r].date), deathIsEstimate := false) &&
        tree.dateRange == WithDate(old(tree.dateRange), doc.events[r].date)
      ensures !IsEvent(doc, r, "Birth") && !IsEvent(doc, r, "Death") ==>
        Dates() == old(Dates()) && tree.dateRange == old(tree.dateRange)
    {
      if IsEvent(doc, r, "Birth") {
        birth, birthIsEstimate := Some(doc.events[r].date), false;
        tree.AddToDateRange(birth.value);
      } else if IsEvent(doc, r, "Death") {
        death, deathIsEstimate := Some(doc.events[r].date), false;
        tree.AddToDateRange(death.value);
      }
    }

    /**
     * The inference after the events: a definite birth with no death is either long dead (a death
     * `lifespan` milliseconds later) or living (the tree's upper date becomes now); a definite
     * death with no birth gets a birth `lifespan` milliseconds earlier.
     */
    method Infer(tree: Tree, cal: Calendar, now: Date)
      requires Consistent(Dates())
      modifies this`birth, this`death, tree`dateRange
      ensures var inf := LegacyInfer(cal, now, old(Dates()));
        birth == inf.birth && death == inf.death &&
        tree.dateRange == if inf.living then old(tree.dateRange).(hi := Some(now)) else old(tree.dateRange)
    {
      if !birthIsEstimate && deathIsEstimate {
        if Trunc(cal.yearsBetween(birth.value, now)) as real > LifespanNow(cal, Legacy, now) * 1.5 {
          death := Some(AddMillis(birth.value, FromBirthYear(Legacy, cal.utcYear(birth.value) as real)));
        } else {
          tree.dateRange := tree.dateRange.(hi := Some(now));
        }
      } else if birthIsEstimate && !deathIsEstimate {
        birth := Some(AddMillis(death.value, -FromDeathYear(Legacy, cal.utcYear(death.value) as real)));
      }
    }

    /** `firstName = name.first.innerHTML`, then `surnames = []` and one entry per `<surname>`. */
    method ReadName(rec: PersonRecord) returns (out: Outcome)
      modifies this`firstName, this`surnames
      ensures Named(rec, out, old(firstName), old(surnames))
    {
      if rec.firstName.None? {
        return Fail(UndefinedValue);
      }
      firstName := rec.firstName;
      surnames := Some(rec.surnames);
      out := Pass;
    }
  }

  /** `link` is the family registered under `named` when the record names one, else `link0`. */
  ghost predicate LinkedTo(data: Data, named: Option<Handle>, link: Family?, link0: Family?)
    reads data.tree`families
  {
    if named.Some? then link != null && link.handle == named.value &&
      named.value in data.tree.families && data.tree.families[named.value] == link
    else link == link0
  }

  /**
   * The dates after the events of `setup`, which first sets both estimate flags: a flag is
   * cleared only with its date, so the inference can read the dates the flags vouch for.
   */
  function EventDates(doc: Doc, refs: seq<Handle>, d0: Dated): (d: Dated)
    ensures Consistent(d)
    ensures d.birthIsEstimate <==> LastDate(doc, refs, "Birth").None?
    ensures d.deathIsEstimate <==> LastDate(doc, refs, "Death").None?
  {
    WithEvents(doc, refs, d0.(birthIsEstimate := true, deathIsEstimate := true))
  }

  /**
   * The tree's date range after a person's `setup`: each Birth and Death date added, then the
   * upper bound moved to now for a living person. The inference never depends on the dates the
   * person had before, since the events' flags decide it.
   */
  function RangeAfter(r0: DateRange, doc: Doc, cal: Calendar, now: Date, refs: seq<Handle>): DateRange {
    var r := WithDates(r0, DatesOf(doc, refs, {"Birth", "Death"}));
    if IsLiving(doc, cal, now, refs) then r.(hi := Some(now)) else r
  }

  /** A definite birth, no Death event, and a truncated age of at most 1.5 lifespans. */
  predicate IsLiving(doc: Doc, cal: Calendar, now: Date, refs: seq<Handle>) {
    var b := LastDate(doc, refs, "Birth");
    b.Some? && LastDate(doc, refs, "Death").None? &&
    Trunc(cal.yearsBetween(b.value, now)) as real <= LifespanNow(cal, Legacy, now) * 1.5
  }

  /**
   * A person's dates after `setup` are the events' dates wherever there is an event; where
   * there is none, the inference decides, and with no event at all the dates found are kept
   * with both flags set. The person is living exactly as `IsLiving` says, whatever dates it had.
   */
  lemma SetUpDates(doc: Doc, cal: Calendar, now: Date, refs: seq<Handle>, d0: Dated)
    ensures var d := EventDates(doc, refs, d0);
      var inf := LegacyInfer(cal, now, d);
      (LastDate(doc, refs, "Birth").Some? ==> inf.birth == LastDate(doc, refs, "Birth")) &&
      (LastDate(doc, refs, "Death").Some? ==> inf.death == LastDate(doc, refs, "Death")) &&
      (LastDate(doc, refs, "Birth").None? && LastDate(doc, refs, "Death").None? ==>
        inf == Inferred(d0.birth, d0.death, false) && d.birthIsEstimate && d.deathIsEstimate) &&
      (inf.living <==> IsLiving(doc, cal, now, refs))
  {
  }

  /** The date fields of a list of persons. */
  function Views(ps: seq<Person>): (vs: seq<Dated>)
    reads ps`birth, ps`birthIsEstimate, ps`death, ps`deathIsEstimate
    ensures |vs| == |ps| && forall i :: 0 <= i < |ps| ==> vs[i] == ps[i].Dates()
  {
    if |ps| == 0 then [] else Views(ps[..|ps| - 1]) + [ps[|ps| - 1].Dates()]
  }

  /** The surname lists of a list of persons, undefined where a person was never set up. */
  function SurnameLists(ps: seq<Person>): (ss: seq<Option<seq<Surname>>>)
    reads ps`surnames
    ensures |ss| == |ps| && forall i :: 0 <= i < |ps| ==> ss[i] == ps[i].surnames
  {
    if |ps| == 0 then [] else SurnameLists(ps[..|ps| - 1]) + [ps[|ps| - 1].surnames]
  }

  function Handles(ps: seq<Person>): (hs: seq<Handle>)
    ensures |hs| == |ps| && forall i :: 0 <= i < |ps| ==> hs[i] == ps[i].handle
  {
    seq(|ps|, i requires 0 <= i < |ps| => ps[i].handle)
  }

  lemma HandlesSnoc(ps: seq<Person>, p: Person)
    ensures Handles(ps + [p]) == Handles(ps) + [p.handle]
  {
    assert (ps + [p])[..|ps|] == ps;
  }

  // =========================================================================================
  // Family (src/ts/TreeNode.ts, src/ts/model/Family.ts)

  class Family {
    const handle: Handle
    var level: Option<int>
    var complete: bool
    var angle: real
    var parents: seq<Person>
    var marriage: Option<Date>
    var marriageIsEstimate: bool
    var children: seq<Person>
    var name: Option<string>

    /** The members are known persons. */
    ghost predicate MembersValid(data: Data)
      reads this`parents, this`children, data`persons
    {
      (forall i :: 0 <= i < |parents| ==> parents[i] in data.persons) &&
      (forall i :: 0 <= i < |children| ==> children[i] in data.persons)
    }

    /**
     * `new Family(handle, data, false)`: registered under its handle (replacing any family
     * there), not complete, with no members.
     */
    constructor (handle: Handle, data: Data)
      modifies data.tree`families, data`familyObjects
      ensures this.handle == handle && level.None? && !complete && angle == 0.0
      ensures parents == [] && children == [] && marriage.None? && !marriageIsEstimate && name.None?
      ensures data.tree.families == old(data.tree.families)[handle := this]
      ensures data.familyObjects == old(data.familyObjects) + {this}
    {
      this.handle := handle;
      level, complete, angle := None, false, 0.0;
      parents, marriage, marriageIsEstimate, children, name := [], None, false, [], None;
      new;
      data.tree.families := data.tree.families[handle := this];
      data.familyObjects := data.familyObjects + {this};
    }

    /**
     * `setup(data)`: read the family's record: parents, marriage events, children, name, the
     * marriage estimate and the fill-in. A handle with no record only marks it complete.
     */
    method Setup(data: Data) returns (out: Outcome)
      requires data.Valid() && data.Closed() && this in data.familyObjects
      modifies this`parents, this`children, this`marriage, this`marriageIsEstimate, this`name, this`complete
      modifies data.tree`people, data.tree`families, data.tree`dateRange, data`persons, data`familyObjects
      modifies data.persons`birth, data.persons`death
      ensures data.Valid() && complete
      ensures data.Grows(old(data.tree.families), old(data.familyObjects)) && data.PeopleGrow(old(data.tree.people))
      ensures fresh(data.persons - old(data.persons)) && fresh(data.familyObjects - old(data.familyObjects))
      ensures handle !in data.doc.families ==>
        out == Pass && parents == old(parents) && children == old(children) && marriage == old(marriage) && name == old(name)
      ensures handle in data.doc.families && out.Pass? ==>
        var rec := data.doc.families[handle];
        Handles(parents) == Handles(old(parents)) + ParentHandles(rec) &&
        Handles(children) == Handles(old(children)) + NullableHandles(rec.childRefs) && marriage.Some?
      ensures out.Fail? ==> out.error in {UndefinedValue, NoMarriageData}
    {
      complete := true;
      if handle !in data.doc.families {
        return Pass;   // "Empty family"
      }
      var rec := data.doc.families[handle];
      out := Load(data, rec);
    }

    /** The record's reading once `complete` is set. */
    method Load(data: Data, rec: FamilyRecord) returns (out: Outcome)
      requires data.Valid() && data.Closed() && this in data.familyObjects
      modifies this`parents, this`children, this`marriage, this`marriageIsEstimate, this`name
      modifies data.tree`people, data.tree`families, data.tree`dateRange, data`persons, data`familyObjects
      modifies data.persons`birth, data.persons`death
      ensures data.Valid()
      ensures data.Grows(old(data.tree.families), old(data.familyObjects)) && data.PeopleGrow(old(data.tree.people))
      ensures fresh(data.persons - old(data.persons)) && fresh(data.familyObjects - old(data.familyObjects))
      ensures out.Pass? ==>
        Handles(parents) == Handles(old(parents)) + ParentHandles(rec) &&
        Handles(children) == Handles(old(children)) + NullableHandles(rec.childRefs)
        && marriage.Some?
      ensures out.Fail? ==> out.error in {UndefinedValue, NoMarriageData}
    {
      out := LoadParents(data, rec);
      if out.Fail? {
        return;
      }
      out := LoadRest(data, rec);
    }

    /** Once the parents are pushed: marriage events, children, then the name and the estimate. */
    method LoadRest(data: Data, rec: FamilyRecord) returns (out: Outcome)
      requires data.Valid() && data.Closed() && this in data.familyObjects
      modifies this`children, this`marriage, this`marriageIsEstimate, this`name
      modifies data.tree`people, data.tree`families, data.tree`dateRange, data`persons, data`familyObjects
      modifies data.persons`birth, data.persons`death
      ensures data.Valid()
      ensures data.Grows(old(data.tree.families), old(data.familyObjects)) && data.PeopleGrow(old(data.tree.people))
      ensures fresh(data.persons - old(data.persons)) && fresh(data.familyObjects - old(data.familyObjects))
      ensures out.Pass? ==> Handles(children) == Handles(old(children)) + NullableHandles(rec.childRefs) && marriage.Some?
      ensures out.Fail? ==> out.error in {UndefinedValue, NoMarriageData}
    {
      ReadMarriage(data, rec.eventRefs);
      out := LoadChildren(data, rec.childRefs);
      if out.Fail? {
        return;
      }
      label Loaded:
      out := Finish(data);
      data.ValidKept@Loaded();
    }

    /**
     * The name, then the marriage estimate and the fill-in. `this.name = parents.map((p) =>
     * p.surnames.find(…)?.name).find(…)`: the first parent's first 'Taken' surname, undefined
     * when there is none, and a TypeError on a parent whose surnames were never set.
     */
    method Finish(data: Data) returns (out: Outcome)
      requires marriageIsEstimate || marriage.Some?
      modifies this`name, this`marriage, parents`birth, parents`death, children`birth, children`death
      ensures forall p: Person :: old(allocated(p)) ==> old(p.parentIn) == p.parentIn && old(p.childOf) == p.childOf
      ensures forall f: Family :: old(allocated(f)) ==> old(f.parents) == f.parents && old(f.children) == f.children
      ensures LegacyFamilyName(old(SurnameLists(parents))).Err? ==>
        out == Fail(UndefinedValue) && name == old(name) && marriage == old(marriage)
      ensures out.Pass? ==> marriage.Some? && LegacyFamilyName(old(SurnameLists(parents))) == Ok(name)
      ensures out.Fail? ==> out.error in {UndefinedValue, NoMarriageData}
      ensures !marriageIsEstimate ==> marriage == old(marriage)
      ensures marriageIsEstimate && LegacyMarriageEstimate(data.cal, data.now, old(Views(parents)), old(Views(children))).Err? ==>
        out.Fail? && marriage == old(marriage)
      ensures out.Pass? ==>
        marriage == (if marriageIsEstimate
          then Some(LegacyMarriageEstimate(data.cal, data.now, old(Views(parents)), old(Views(children))).value)
          else old(marriage))
      ensures out.Pass? ==> Filled(data.cal, marriage.value, old(Unfixeds(parents)), old(Unfixeds(children)))
    {
      var r := LegacyFamilyName(SurnameLists(parents));
      if r.Err? {
        return Fail(r.error);
      }
      name := r.value;
      DatesKept(parents);
      DatesKept(children);
      out := Estimate(data);
    }

    /** `parents.push(new Person(father))`, then the same for the mother. */
    method LoadParents(data: Data, rec: FamilyRecord) returns (out: Outcome)
      requires data.Valid() && data.Closed() && this in data.familyObjects
      modifies this`parents, data.tree`people, data.tree`families, data.tree`dateRange, data`persons,
        data`familyObjects
      ensures data.Valid()
      ensures data.Grows(old(data.tree.families), old(data.familyObjects)) && data.PeopleGrow(old(data.tree.people))
      ensures fresh(data.persons - old(data.persons)) && fresh(data.familyObjects - old(data.familyObjects))
      ensures out.Fail? ==> out == Fail(UndefinedValue)
      ensures out.Pass? ==> Handles(parents) == Handles(old(parents)) + ParentHandles(rec)
      ensures forall i :: |old(parents)| <= i < |parents| ==> fresh(parents[i])
    {
      out := Pass;
      if rec.father.Some? {
        out := LoadParent(data, rec.father.value);
        if out.Fail? {
          return;
        }
      }
      if rec.mother.Some? {
        out := LoadParent(data, rec.mother.value);
      }
    }

    /** One `parents.push(new Person(handle, data))`: always a new object; nothing is pushed when it throws. */
    method LoadParent(data: Data, h: Handle) returns (out: Outcome)
      requires data.Valid() && data.Closed() && this in data.familyObjects
      modifies this`parents, data.tree`people, data.tree`families, data.tree`dateRange, data`persons,
        data`familyObjects
      ensures data.Valid()
      ensures data.Grows(old(data.tree.families), old(data.familyObjects)) && data.PeopleGrow(old(data.tree.people))
      ensures fresh(data.persons - old(data.persons)) && fresh(data.familyObjects - old(data.familyObjects))
      ensures out.Fail? ==> out == Fail(UndefinedValue) && parents == old(parents)
      ensures out.Pass? ==> |parents| == |old(parents)| + 1 && fresh(parents[|parents| - 1])
      ensures out.Pass? ==> parents[..|old(parents)|] == old(parents) && Handles(parents) == Handles(old(parents)) + [h]
    {
      var p;
      p, out := Person.New(h, data);
      if out.Fail? {
        return;
      }
      HandlesSnoc(parents, p);
      AddParent(data, p);
    }

    method AddParent(data: Data, p: Person)
      requires data.FamiliesValid() && this in data.familyObjects && p in data.persons
      modifies this`parents
      ensures data.FamiliesValid() && parents == old(parents) + [p]
    {
      parents := parents + [p];
    }

    /**
     * `marriageIsEstimate = true`, then the `eventref` loop: each Marriage event sets the
     * marriage and clears the flag.
     */
    method ReadMarriage(data: Data, refs: seq<Handle>)
      modifies this`marriage, this`marriageIsEstimate, data.tree`dateRange
      ensures marriageIsEstimate <==> LastDate(data.doc, refs, "Marriage").None?
      ensures marriage == if marriageIsEstimate then old(marriage) else LastDate(data.doc, refs, "Marriage")
      ensures data.tree.dateRange == WithDates(old(data.tree.dateRange), DatesOf(data.doc, refs, {"Marriage"}))
    {
      marriageIsEstimate := true;
      ghost var m0, r0 := marriage, data.tree.dateRange;
      for i := 0 to |refs|
        invariant marriageIsEstimate <==> LastDate(data.doc, refs[..i], "Marriage").None?
        invariant marriage == if marriageIsEstimate then m0 else LastDate(data.doc, refs[..i], "Marriage")
        invariant data.tree.dateRange == WithDates(r0, DatesOf(data.doc, refs[..i], {"Marriage"}))
      {
        EventRefStep(data.doc, refs, i, "Marriage");
        var r := refs[i];
        if IsEvent(data.doc, r, "Marriage") {
          marriage, marriageIsEstimate := Some(data.doc.events[r].date), false;
          WithDatesSnoc(r0, DatesOf(data.doc, refs[..i], {"Marriage"}), marriage.value);
          assert DatesOf(data.doc, refs[..i + 1], {"Marriage"}) == DatesOf(data.doc, refs[..i], {"Marriage"}) + [marriage.value];
          data.tree.AddToDateRange(marriage.value);
          assert data.tree.dateRange == WithDates(r0, DatesOf(data.doc, refs[..i + 1], {"Marriage"}));
        } else {
          assert DatesOf(data.doc, refs[..i + 1], {"Marriage"}) == DatesOf(data.doc, refs[..i], {"Marriage"});
        }
      }
      assert refs[..|refs|] == refs;
    }

    /** The `childref` loop of `setup`: the registered person, else a new one. */
    method LoadChildren(data: Data, refs: seq<Option<Handle>>) returns (out: Outcome)
      requires data.Valid() && data.Closed() && this in data.familyObjects
      modifies this`children, data.tree`people, data.tree`families, data.tree`dateRange, data`persons,
        data`familyObjects
      ensures data.Valid()
      ensures data.Grows(old(data.tree.families), old(data.familyObjects)) && data.PeopleGrow(old(data.tree.people))
      ensures fresh(data.persons - old(data.persons)) && fresh(data.familyObjects - old(data.familyObjects))
      ensures out.Fail? ==> out == Fail(UndefinedValue)
      ensures out.Pass? ==> Handles(children) == Handles(old(children)) + NullableHandles(refs)
    {
      ghost var hs0 := Handles(children);
      for i := 0 to |refs|
        invariant data.Valid() && this in data.familyObjects
        invariant data.Grows(old(data.tree.families), old(data.familyObjects)) && data.PeopleGrow(old(data.tree.people))
        invariant fresh(data.persons - old(data.persons)) && fresh(data.familyObjects - old(data.familyObjects))
        invariant Handles(children) == hs0 + NullableHandles(refs[..i])
      {
        NullableHandlesStep(refs, i);
        out := LoadChild(data, HlinkKey(refs[i]));
        if out.Fail? {
          return;
        }
      }
      assert refs[..|refs|] == refs;
      out := Pass;
    }

    /** One `childref`: `tree.people[handle]` when it is registered, else `new Person(handle, data)`, pushed. */
    method LoadChild(data: Data, h: Handle) returns (out: Outcome)
      requires data.Valid() && data.Closed() && this in data.familyObjects
      modifies this`children, data.tree`people, data.tree`families, data.tree`dateRange, data`persons,
        data`familyObjects
      ensures data.Valid()
      ensures data.Grows(old(data.tree.families), old(data.familyObjects)) && data.PeopleGrow(old(data.tree.people))
      ensures fresh(data.persons - old(data.persons)) && fresh(data.familyObjects - old(data.familyObjects))
      ensures out.Fail? ==> out == Fail(UndefinedValue) && children == old(children)
      ensures out.Pass? ==> |children| == |old(children)| + 1 && children[..|old(children)|] == old(children)
      ensures out.Pass? ==> Handles(children) == Handles(old(children)) + [h]
      ensures out.Pass? && h in old(data.tree.people) ==> children[|children| - 1] == old(data.tree.people[h])
    {
      var c: Person;
      if h in data.tree.people {
        c := data.tree.people[h];
        out := Pass;
      } else {
        c, out := Person.New(h, data);
        if out.Fail? {
          return;
        }
      }
      HandlesSnoc(children, c);
      AddChild(data, c);
    }

    method AddChild(data: Data, c: Person)
      requires data.FamiliesValid() && this in data.familyObjects && c in data.persons
      modifies this`children
      ensures data.FamiliesValid() && children == old(children) + [c]
    {
      children := children + [c];
    }

    /**
     * The marriage estimate when no Marriage event was read (throwing when there is nothing to go
     * on or when a definite parent birth is undefined), then the fill-in of parents and children
     * whose dates are both estimates.
     */
    method Estimate(data: Data) returns (out: Outcome)
      requires marriageIsEstimate || marriage.Some?
      modifies this`marriage, parents`birth, parents`death, children`birth, children`death
      ensures forall p: Person :: old(allocated(p)) ==> old(p.parentIn) == p.parentIn && old(p.childOf) == p.childOf
      ensures forall f: Family :: old(allocated(f)) ==> old(f.parents) == f.parents && old(f.children) == f.children
      ensures marriageIsEstimate && LegacyMarriageEstimate(data.cal, data.now, old(Views(parents)), old(Views(children))).Err? ==>
        out == Fail(LegacyMarriageEstimate(data.cal, data.now, old(Views(parents)), old(Views(children))).error) &&
        marriage == old(marriage) &&
        forall p :: p in parents + children ==> p.birth == old(p.birth) && p.death == old(p.death)
      ensures out.Pass? ==>
        marriage == (if marriageIsEstimate
          then Some(LegacyMarriageEstimate(data.cal, data.now, old(Views(parents)), old(Views(children))).value)
          else old(marriage))
      ensures out.Pass? ==> (marriage.Some? &&
        Filled(data.cal, marriage.value, old(Unfixeds(parents)), old(Unfixeds(children))))
      ensures out.Fail? ==> marriageIsEstimate && out.error in {UndefinedValue, NoMarriageData}
    {
      // The filters read only the estimate flags, which nothing here changes: taking them
      // before the marriage estimate is the same as taking them after it.
      var qp := Unfixeds(parents);
      var qc := Unfixeds(children);
      out := Marry(data);
      if out.Fail? {
        return;
      }
      Fill(data.cal, marriage.value, qp, qc);
    }

    /** The two `forEach` fill-ins, parents first: a child listed among the parents ends with a child's dates. */
    static method Fill(cal: Calendar, m: Date, qp: seq<Person>, qc: seq<Person>)
      modifies qp`birth, qp`death, qc`birth, qc`death
      ensures Filled(cal, m, qp, qc)
      ensures forall p: Person :: old(allocated(p)) ==> old(p.parentIn) == p.parentIn && old(p.childOf) == p.childOf
      ensures forall f: Family :: old(allocated(f)) ==> old(f.parents) == f.parents && old(f.children) == f.children
    {
      FillParents(cal, m, qp);
      FillChildren(cal, m, qc);
    }

    /** The marriage estimate, made only when no Marriage event was read. */
    method Marry(data: Data) returns (out: Outcome)
      requires marriageIsEstimate || marriage.Some?
      modifies this`marriage
      ensures marriageIsEstimate && LegacyMarriageEstimate(data.cal, data.now, old(Views(parents)), old(Views(children))).Err? ==>
        out == Fail(LegacyMarriageEstimate(data.cal, data.now, old(Views(parents)), old(Views(children))).error) &&
        marriage == old(marriage)
      ensures out.Pass? ==>
        marriage.Some? &&
        marriage == (if marriageIsEstimate
          then Some(LegacyMarriageEstimate(data.cal, data.now, old(Views(parents)), old(Views(children))).value)
          else old(marriage))
      ensures forall p :: p in parents + children ==> p.birth == old(p.birth) && p.death == old(p.death)
      ensures forall p: Person :: old(allocated(p)) ==> old(p.parentIn) == p.parentIn && old(p.childOf) == p.childOf
      ensures forall f: Family :: old(allocated(f)) ==> old(f.parents) == f.parents && old(f.children) == f.children
      ensures out.Fail? ==> marriageIsEstimate && out.error in {UndefinedValue, NoMarriageData}
    {
      if marriageIsEstimate {
        var r := LegacyMarriageEstimate(data.cal, data.now, Views(parents), Views(children));
        if r.Err? {
          return Fail(r.error);
        }
        marriage := Some(r.value);
      }
      out := Pass;
    }

    /** The parents' `forEach`: every listed parent is born 25 years before the marriage. */
    static method FillParents(cal: Calendar, m: Date, q: seq<Person>)
      modifies q`birth, q`death
      ensures forall p :: p in q ==> (p.birth == Some(ParentBirth(cal, m)) &&
        p.death == Some(DeathAfter(cal, Legacy, ParentBirth(cal, m))))
    {
      for i := 0 to |q|
        invariant forall p :: p in q[..i] ==> (p.birth == Some(ParentBirth(cal, m)) &&
          p.death == Some(DeathAfter(cal, Legacy, ParentBirth(cal, m))))
      {
        assert q[..i + 1] == q[..i] + [q[i]];
        q[i].birth := Some(ParentBirth(cal, m));
        q[i].death := Some(DeathAfter(cal, Legacy, q[i].birth.value));
      }
      assert q[..|q|] == q;
    }

    /**
     * The children's `forEach((c, i) => …)`: the `i`-th listed child is born `2 + 2i` years after
     * the marriage; a child listed twice keeps the dates of its last position.
     */
    static method FillChildren(cal: Calendar, m: Date, q: seq<Person>)
      modifies q`birth, q`death
      ensures forall p :: p in q ==> (p.birth == Some(ChildBirth(cal, m, LastIndex(q, p))) &&
        p.death == Some(DeathAfter(cal, Legacy, ChildBirth(cal, m, LastIndex(q, p)))))
    {
      for i := 0 to |q|
        invariant forall p :: p in q[..i] ==> (p.birth == Some(ChildBirth(cal, m, LastIndex(q[..i], p))) &&
          p.death == Some(DeathAfter(cal, Legacy, ChildBirth(cal, m, LastIndex(q[..i], p)))))
      {
        var c := q[i];
        c.birth := Some(ChildBirth(cal, m, i));
        c.death := Some(DeathAfter(cal, Legacy, c.birth.value));
        forall p | p in q[..i + 1]
          ensures LastIndex(q[..i + 1], p) == if p == c then i else LastIndex(q[..i], p)
        {
          LastIndexStep(q, i, p);
        }
      }
      assert q[..|q|] == q;
    }

    /**
     * `arc(scale)`: the arc between the first two parents, ends swapped to keep the name upright.
     * A family with fewer than two parents reads `angle` of undefined.
     */
    function ParentsArc(): (r: Result<Arc>)
      reads this`angle, this`parents, parents`angle
      ensures r.Err? <==> |parents| < 2
      ensures r.Err? ==> r.error == UndefinedValue
      ensures r.Ok? ==> {r.value.start, r.value.end} == {parents[0].angle, parents[1].angle}
      ensures r.Ok? && -540.0 <= parents[1].angle - parents[0].angle <= 540.0 ==>
        -180.0 <= r.value.dTheta <= 180.0 && r.value.largeArc == 0
    {
      if |parents| < 2 then Err(UndefinedValue)
      else Ok(MarriageArc(angle, parents[0].angle, parents[1].angle))
    }
  }

  /** Both of the person's dates are estimates: the fill-in may overwrite them. */
  predicate Unfixed(p: Person)
    reads p`birthIsEstimate, p`deathIsEstimate
  {
    p.birthIsEstimate && p.deathIsEstimate
  }

  /** The views and the filter read only the date fields: with those unchanged they are the same. */
  twostate lemma {:induction false} DatesKept(ps: seq<Person>)
    requires forall p :: p in ps ==> old(p.Dates()) == p.Dates()
    ensures Views(ps) == old(Views(ps)) && Unfixeds(ps) == old(Unfixeds(ps))
  {
    if |ps| > 0 {
      DatesKept(ps[..|ps| - 1]);
    }
  }

  /** `ps.filter((p) => p.birthIsEstimate && p.deathIsEstimate)`. */
  function Unfixeds(ps: seq<Person>): (r: seq<Person>)
    reads ps`birthIsEstimate, ps`deathIsEstimate
    decreases |ps|
    ensures forall i :: 0 <= i < |r| ==> r[i] in ps && Unfixed(r[i])
    ensures forall i :: 0 <= i < |ps| && Unfixed(ps[i]) ==> ps[i] in r
  {
    if |ps| == 0 then []
    else
      var init := Unfixeds(ps[..|ps| - 1]);
      assert forall i :: 0 <= i < |ps| - 1 ==> ps[..|ps| - 1][i] == ps[i];
      init + (if Unfixed(ps[|ps| - 1]) then [ps[|ps| - 1]] else [])
  }

  /**
   * The result of the two fill-in loops, given the parents and children they listed (those
   * whose dates were both estimates): children by their last position, other parents alike.
   */
  ghost predicate Filled(cal: Calendar, m: Date, qp: seq<Person>, qc: seq<Person>)
    reads qp`birth, qp`death, qc`birth, qc`death
  {
    (forall p :: p in qc ==> (p.birth == Some(ChildBirth(cal, m, LastIndex(qc, p))) &&
      p.death == Some(DeathAfter(cal, Legacy, ChildBirth(cal, m, LastIndex(qc, p)))))) &&
    (forall p :: p in qp && p !in qc ==> (p.birth == Some(ParentBirth(cal, m)) &&
      p.death == Some(DeathAfter(cal, Legacy, ParentBirth(cal, m)))))
  }

  // =========================================================================================
  // Data (src/ts/Data.ts)

  /** The links `addParentSorting` pushes for `ps`, in order. */
  function ParentLinks(ps: seq<Person>, f: Family): (ls: seq<Link>)
    ensures |ls| == |ps| && forall i :: 0 <= i < |ps| ==> ls[i] == ParentLink(ps[i], f)
  {
    if |ps| == 0 then [] else ParentLinks(ps[..|ps| - 1], f) + [ParentLink(ps[|ps| - 1], f)]
  }

  /** The links the children's loop pushes for `cs`, in order. */
  function ChildLinks(f: Family, cs: seq<Person>): (ls: seq<Link>)
    ensures |ls| == |cs| && forall i :: 0 <= i < |cs| ==> ls[i] == ChildLink(f, cs[i])
  {
    if |cs| == 0 then [] else ChildLinks(f, cs[..|cs| - 1]) + [ChildLink(f, cs[|cs| - 1])]
  }

  /** From the first registry and object set to the second, nothing is dropped or replaced. */
  /** A member's level once placed: its own when it has one, else the level the walk offers. */
  function JoinedLevel(own: Option<int>, offered: Option<int>): Option<int> {
    if own.None? then offered else own
  }

  ghost predicate GrowsFrom(families0: map<Handle, Family>, objects0: set<Family>,
                            families1: map<Handle, Family>, objects1: set<Family>) {
    objects0 <= objects1 && forall h :: h in families0 ==> h in families1 && families1[h] == families0[h]
  }

  lemma GrowsTrans(families0: map<Handle, Family>, objects0: set<Family>, families1: map<Handle, Family>,
                   objects1: set<Family>, families2: map<Handle, Family>, objects2: set<Family>)
    requires GrowsFrom(families0, objects0, families1, objects1) && GrowsFrom(families1, objects1, families2, objects2)
    ensures GrowsFrom(families0, objects0, families2, objects2)
  {
  }

  /** A queued family's level and the sort list its members' lists are made from. */
  datatype FamilyData = FamilyData(level: int, sorting: seq<SortItem>)

  class Data {
    const tree: Tree
    const doc: Doc
    const cal: Calendar
    const now: Date
    var familiesToDo: OrderedMap.Map<Handle, FamilyData>
    /** The family handles the walk can meet: the root and every family a person record names. */
    ghost var universe: set<Handle>
    /** Every person and family object created so far. */
    ghost var persons: set<Person>
    ghost var familyObjects: set<Family>

    /** `new Data(xmlDoc)` up to its call of `parseData`: an empty tree and an empty queue. */
    constructor (doc: Doc, cal: Calendar, now: Date)
      ensures this.doc == doc && this.cal == cal && this.now == now && fresh(tree)
      ensures tree.people == map[] && tree.families == map[] && tree.links == [] && tree.levels == map[]
      ensures tree.maxLevel == 0 && tree.dateRange == DateRange(None, None)
      ensures familiesToDo == [] && persons == {} && familyObjects == {}
      ensures Valid()
    {
      this.doc, this.cal, this.now := doc, cal, now;
      tree := new Tree();
      familiesToDo, universe, persons, familyObjects := [], {}, {}, {};
    }

    /** Every family a person record names is one the walk can meet. */
    ghost predicate Closed()
      reads this`universe
    {
      (forall r :: r in doc.people.Values && r.parentIn.Some? ==> r.parentIn.value in universe) &&
      (forall r :: r in doc.people.Values && r.childOf.Some? ==> r.childOf.value in universe)
    }

    /**
     * What every step keeps: registries point at known objects, members at known persons, links
     * at registered families. The queue's own invariant is `QueueValid`.
     */
    ghost predicate Valid()
      reads this`universe, this`persons, this`familyObjects, tree`families, tree`people
      reads persons`parentIn, persons`childOf, familyObjects`parents, familyObjects`children
    {
      RegistryValid() && FamiliesValid() && PersonsValid()
    }

    /** The queue is a map whose keys the walk can meet, each with a sort list that has a head. */
    ghost predicate QueueValid()
      reads this`familiesToDo, this`universe
    {
      OrderedMap.Valid(familiesToDo) &&
      forall i :: 0 <= i < |familiesToDo| ==> familiesToDo[i].0 in universe && |familiesToDo[i].1.sorting| > 0
    }

    /** `Valid` reads only the registries, the known objects and their links: with those unchanged it still holds. */
    twostate lemma ValidKept()
      requires old(Valid())
      requires unchanged(this`universe, this`persons, this`familyObjects, tree`families, tree`people)
      requires forall p :: p in persons ==> old(p.parentIn) == p.parentIn && old(p.childOf) == p.childOf
      requires forall f :: f in familyObjects ==> old(f.parents) == f.parents && old(f.children) == f.children
      ensures Valid()
    {
    }

    /** Each registered family and person is a known object, registered under its handle. */
    ghost predicate RegistryValid()
      reads this`persons, this`familyObjects, tree`families, tree`people
    {
      (forall h :: h in tree.families ==> tree.families[h] in familyObjects && tree.families[h].handle == h) &&
      (forall h :: h in tree.people ==> tree.people[h] in persons && tree.people[h].handle == h)
    }

    /** Each family's members are known persons. */
    ghost predicate FamiliesValid()
      reads this`persons, this`familyObjects, familyObjects`parents, familyObjects`children
    {
      forall f :: f in familyObjects ==> f.MembersValid(this)
    }

    /** A family handle that is registered and that the walk can meet. */
    ghost predicate Meets(h: Handle)
      reads this`universe, tree`families
    {
      h in tree.families && h in universe
    }

    /** Each person's families are known, registered, and among the handles the walk can meet. */
    ghost predicate PersonsValid()
      reads this`persons, this`familyObjects, this`universe, tree`families, persons`parentIn, persons`childOf
    {
      forall p :: p in persons ==> p.LinksValid(this)
    }

    /** The person registry only grows, and no registered person is replaced. */
    ghost predicate PeopleGrow(people0: map<Handle, Person>)
      reads tree`people
    {
      forall h :: h in people0 ==> h in tree.people && tree.people[h] == people0[h]
    }

    /** The family registry only grows, and no registered family is replaced. */
    ghost predicate Grows(families0: map<Handle, Family>, objects0: set<Family>)
      reads this`familyObjects, tree`families
    {
      GrowsFrom(families0, objects0, tree.families, familyObjects)
    }

    /** `tree.families[h] || new Family(h, data, false)`: the registered family, else a new reference. */
    method FamilyFor(h: Handle) returns (f: Family)
      requires Valid()
      modifies tree`families, this`familyObjects
      ensures Valid() && Grows(old(tree.families), old(familyObjects))
      ensures h in tree.families && tree.families[h] == f && f in familyObjects
      ensures tree.families.Keys == old(tree.families.Keys) + {h}
      ensures h in old(tree.families) ==> f == old(tree.families[h]) && familyObjects == old(familyObjects)
      ensures h !in old(tree.families) ==> fresh(f) && !f.complete && familyObjects == old(familyObjects) + {f}
    {
      if h in tree.families {
        f := tree.families[h];
      } else {
        f := new Family(h, this);
      }
    }

    /** The handles of the families the walk is done with: registered, known and complete. */
    ghost function Done(): set<Handle>
      reads this`universe, this`familyObjects, tree`families, familyObjects`complete
    {
      set h | h in tree.families && h in universe && tree.families[h] in familyObjects && tree.families[h].complete
    }

    /** The handles the walk may still have to process. */
    ghost function Pending(): set<Handle>
      reads this`universe, this`familyObjects, tree`families, familyObjects`complete
    {
      universe - Done()
    }

    /** `familiesToDo.remove(familyId)` for the first key. */
    method Dequeue()
      requires QueueValid() && |familiesToDo| > 0
      modifies this`familiesToDo
      ensures QueueValid() && familiesToDo == old(familiesToDo[1..])
    {
      OrderedMap.RemoveFirst(familiesToDo);
      familiesToDo := OrderedMap.Remove(familiesToDo, familiesToDo[0].0);
    }

    /**
     * `parseData`: queue the root family at level 1 with the sort list `[{Parent, 0}]`, then walk
     * the queue until it is empty. The walk ends because every turn either drops a queued family
     * or completes one more of the finitely many families the document names.
     */
    method ParseData(rootFamilyId: string) returns (out: Outcome)
      requires Valid() && QueueValid() && familiesToDo == [] && tree.families == map[] && tree.people == map[]
      requires persons == {} && familyObjects == {}
      modifies this`familiesToDo, this`universe, this`persons, this`familyObjects, tree
      ensures Valid() && QueueValid()
      ensures RootHandle(doc, rootFamilyId).Err? ==> out == Fail(UndefinedValue)
      ensures out.Pass? ==> RootHandle(doc, rootFamilyId).Ok? && universe == FamilyUniverse(doc, RootHandle(doc, rootFamilyId).value)
      ensures out.Pass? ==> familiesToDo == [] && RootHandle(doc, rootFamilyId).value in Done()
    {
      var r := RootHandle(doc, rootFamilyId);
      if r.Err? {
        return Fail(r.error);
      }
      universe := FamilyUniverse(doc, r.value);
      familiesToDo := [(r.value, FamilyData(1, [SortItem(Parent, 0)]))];
      assert OrderedMap.Keys(familiesToDo) == [r.value];
      out := Drain(r.value);
    }

    /**
     * The `while (familiesToDo.size())` loop. A passing run empties the queue and is done with
     * the family that was first in it.
     */
    method Drain(ghost first: Handle) returns (out: Outcome)
      requires Valid() && Closed() && QueueValid() && |familiesToDo| > 0 && familiesToDo[0].0 == first
      modifies this`familiesToDo, this`persons, this`familyObjects, tree, persons, familyObjects
      ensures Valid() && QueueValid()
      ensures out.Pass? ==> familiesToDo == [] && first in Done()
    {
      out := Pass;
      ghost var persons0, families0 := persons, familyObjects;
      while |familiesToDo| > 0
        invariant Valid() && QueueValid()
        invariant fresh(persons - persons0) && fresh(familyObjects - families0)
        invariant first in Done() || (|familiesToDo| > 0 && familiesToDo[0].0 == first)
        decreases Pending(), |familiesToDo|
      {
        out := Step();
        if out.Fail? {
          return;
        }
      }
    }

    /** One turn of the `while` loop: the first queued family is dropped when complete, else walked. */
    method Step() returns (out: Outcome)
      requires Valid() && Closed() && QueueValid() && |familiesToDo| > 0
      modifies this`familiesToDo, this`persons, this`familyObjects, tree, persons, familyObjects
      ensures Valid() && QueueValid()
      ensures fresh(persons - old(persons)) && fresh(familyObjects - old(familyObjects))
      ensures old(Done()) <= Done()
      ensures old(familiesToDo[0].0) in old(Done()) ==> out == Pass && familiesToDo == old(familiesToDo[1..])
      ensures out.Pass? ==> old(familiesToDo[0].0) in Done()
      ensures out.Pass? ==>
        Pending() < old(Pending()) || (Pending() == old(Pending()) && |familiesToDo| < old(|familiesToDo|))
    {
      var h := familiesToDo[0].0;
      if h in tree.families && tree.families[h].complete {
        Dequeue();
        return Pass;
      }
      out := Visit(h);
    }

    /** A queued family the walk is not done with: set it up, then walk it. */
    method Visit(h: Handle) returns (out: Outcome)
      requires Valid() && Closed() && QueueValid() && |familiesToDo| > 0 && familiesToDo[0].0 == h
      requires !(h in tree.families && tree.families[h].complete)
      modifies this`familiesToDo, this`persons, this`familyObjects, tree, persons, familyObjects
      ensures Valid() && QueueValid()
      ensures fresh(persons - old(persons)) && fresh(familyObjects - old(familyObjects))
      ensures old(Done()) <= Done()
      ensures out.Pass? ==> h in Done() && Pending() < old(Pending())
    {
      ghost var pending := Pending();
      assert h in pending;
      var family;
      family, out := SetUpFamily(h);
      if out.Fail? {
        return;
      }
      ghost var done, families0 := Done(), tree.families;
      out := Walk(family, h);
      forall k | k in done ensures k in Done() {
        assert tree.families[k] == families0[k];
      }
    }

    /**
     * A registered family that is not complete is set up; an unregistered handle gets
     * `new Family(familyId, this, true)`, which registers it and sets it up.
     */
    method SetUpFamily(h: Handle) returns (family: Family, out: Outcome)
      requires Valid() && Closed() && h in universe && !(h in tree.families && tree.families[h].complete)
      modifies tree`people, tree`families, tree`dateRange, this`persons, this`familyObjects
      modifies familyObjects`parents, familyObjects`children, familyObjects`marriage,
        familyObjects`marriageIsEstimate, familyObjects`name, familyObjects`complete
      modifies persons`birth, persons`death
      ensures Valid() && Grows(old(tree.families), old(familyObjects))
      ensures fresh(persons - old(persons)) && fresh(familyObjects - old(familyObjects))
      ensures h in tree.families && tree.families[h] == family && family in familyObjects
      ensures h in old(tree.families) ==> family == old(tree.families[h])
      ensures old(Done()) + {h} <= Done()
    {
      ghost var done, objects0 := Done(), familyObjects;
      family := FamilyFor(h);
      assert done <= Done();
      ghost var objects1 := familyObjects;
      assert fresh(objects1 - objects0);
      out := SetUp(family, h);
      assert familyObjects - objects0 <= (familyObjects - objects1) + (objects1 - objects0);
    }

    /** `family.setup(this)` for the family registered under `h`, which the walk is then done with. */
    method SetUp(family: Family, h: Handle) returns (out: Outcome)
      requires Valid() && Closed() && h in universe && h in tree.families && tree.families[h] == family
      requires family in familyObjects
      modifies tree`people, tree`families, tree`dateRange, this`persons, this`familyObjects
      modifies familyObjects`parents, familyObjects`children, familyObjects`marriage,
        familyObjects`marriageIsEstimate, familyObjects`name, familyObjects`complete
      modifies persons`birth, persons`death
      ensures Valid() && Grows(old(tree.families), old(familyObjects))
      ensures fresh(persons - old(persons)) && fresh(familyObjects - old(familyObjects))
      ensures h in tree.families && tree.families[h] == family && family in familyObjects
      ensures old(Done()) + {h} <= Done()
    {
      ghost var families0 := tree.families;
      out := family.Setup(this);
      forall k | k in old(Done()) ensures k in Done() {
        assert families0[k] == family || families0[k].complete == old(families0[k].complete);
      }
    }

    /**
     * The rest of a turn once the family is set up: read the queue entry, record the level,
     * dequeue, then place the parents (each with a copy of the sort list) and the children.
     */
    method Walk(family: Family, h: Handle) returns (out: Outcome)
      requires Valid() && Closed() && QueueValid() && |familiesToDo| > 0 && familiesToDo[0].0 == h
      requires h in tree.families && tree.families[h] == family && family in familyObjects && family.complete
      modifies this`familiesToDo, tree`families, tree`links, tree`levels, tree`maxLevel, tree`dateRange
      modifies this`familyObjects, family`level
      modifies persons`level, persons`complete, persons`gender, persons`parentIn, persons`childOf, persons`birth,
        persons`birthIsEstimate, persons`death, persons`deathIsEstimate, persons`firstName, persons`surnames, persons`sortList
      ensures Valid() && QueueValid() && Grows(old(tree.families), old(familyObjects)) && fresh(familyObjects - old(familyObjects))
      ensures forall f :: f in old(familyObjects) && old(f.complete) ==> f.complete
      ensures out.Fail? ==> out == Fail(UndefinedValue)
    {
      OrderedMap.GetAt(familiesToDo, 0);
      var fd := OrderedMap.Get(familiesToDo, h);
      if fd.None? {
        // `familiesToDo.get` of a key just read from the map: never undefined
        assert false;
      }
      var level, sortList := fd.value.level, fd.value.sorting;
      Enter(family, level);
      out := PlaceMembers(family, sortList, level);
    }

    /** The parents' loop, then the children's loop, which a failing parent skips. */
    method PlaceMembers(family: Family, sortList: seq<SortItem>, level: int) returns (out: Outcome)
      requires Valid() && Closed() && QueueValid() && family in familyObjects && family.level == Some(level)
      requires |sortList| > 0
      modifies this`familiesToDo, tree`families, tree`links, tree`levels, tree`dateRange, this`familyObjects
      modifies persons`level, persons`complete, persons`gender, persons`parentIn, persons`childOf, persons`birth,
        persons`birthIsEstimate, persons`death, persons`deathIsEstimate, persons`firstName, persons`surnames, persons`sortList
      ensures Valid() && QueueValid() && Grows(old(tree.families), old(familyObjects)) && fresh(familyObjects - old(familyObjects))
      ensures out.Fail? ==> out == Fail(UndefinedValue)
      ensures out.Pass? ==> tree.links == old(tree.links) + ParentLinks(family.parents, family) + ChildLinks(family, family.children)
    {
      ghost var families0, objects0 := tree.families, familyObjects;
      assert family.MembersValid(this);
      out := ProcessParents(family, family.parents, sortList);
      if out.Fail? {
        return;
      }
      ghost var families1, objects1 := tree.families, familyObjects;
      assert family.MembersValid(this);
      out := ProcessChildren(family, family.children, sortList, level);
      GrowsTrans(families0, objects0, families1, objects1, tree.families, familyObjects);
      assert familyObjects - objects0 <= (familyObjects - objects1) + (objects1 - objects0);
    }

    /** `family.level = level`, `maxLevel = Math.max(maxLevel, level)`, `familiesToDo.remove(familyId)`. */
    method Enter(family: Family, level: int)
      requires QueueValid() && |familiesToDo| > 0
      modifies family`level, tree`maxLevel, this`familiesToDo
      ensures QueueValid() && familiesToDo == old(familiesToDo[1..])
      ensures family.level == Some(level) && tree.maxLevel == MaxLevel(old(tree.maxLevel), level)
    {
      family.level := Some(level);
      tree.maxLevel := MaxLevel(tree.maxLevel, level);
      Dequeue();
    }

    /** The parents' `for…of`: `addParentSorting(family, parent, sortList.slice())` for each. */
    method ProcessParents(family: Family, parents: seq<Person>, sortList: seq<SortItem>) returns (out: Outcome)
      requires Valid() && Closed() && QueueValid() && family.level.Some? && |sortList| > 0
      requires forall i :: 0 <= i < |parents| ==> parents[i] in persons
      modifies this`familiesToDo, tree`families, tree`links, tree`levels, tree`dateRange, this`familyObjects
      modifies parents`level, parents`complete, parents`gender, parents`parentIn, parents`childOf, parents`birth,
        parents`birthIsEstimate, parents`death, parents`deathIsEstimate, parents`firstName, parents`surnames, parents`sortList
      ensures Valid() && QueueValid() && Grows(old(tree.families), old(familyObjects)) && fresh(familyObjects - old(familyObjects))
      ensures out.Fail? ==> out == Fail(UndefinedValue)
      ensures out.Pass? ==> forall p :: p in parents ==> (p.complete && p.level.Some? &&
        p.sortList == ParentSortList(sortList, p.gender == Male).value)
      ensures out.Pass? ==> tree.links == old(tree.links) + ParentLinks(parents, family)
    {
      ghost var families0, objects0, links0 := tree.families, familyObjects, tree.links;
      for i := 0 to |parents|
        invariant Valid() && QueueValid() && Grows(families0, objects0) && fresh(familyObjects - objects0)
        invariant forall p :: p in parents[..i] ==> (p.complete && p.level.Some? &&
          p.sortList == ParentSortList(sortList, p.gender == Male).value)
        invariant tree.links == links0 + ParentLinks(parents[..i], family)
      {
        out := ParentTurn(family, parents, sortList, i, parents[i], links0);
        if out.Fail? {
          return;
        }
      }
      assert parents[..|parents|] == parents;
      out := Pass;
    }

    /** The turn of `parents[i]`, which keeps the loop's invariant. */
    method ParentTurn(family: Family, parents: seq<Person>, sortList: seq<SortItem>, i: nat, parent: Person,
                      ghost links0: seq<Link>) returns (out: Outcome)
      requires Valid() && Closed() && QueueValid() && family.level.Some? && |sortList| > 0
      requires i < |parents| && parents[i] == parent && parent in persons
      requires forall p :: p in parents[..i] ==> (p.complete && p.level.Some? &&
        p.sortList == ParentSortList(sortList, p.gender == Male).value)
      requires tree.links == links0 + ParentLinks(parents[..i], family)
      modifies this`familiesToDo, tree`families, tree`links, tree`levels, tree`dateRange, this`familyObjects
      modifies parent`level, parent`complete, parent`gender, parent`parentIn, parent`childOf, parent`birth,
        parent`birthIsEstimate, parent`death, parent`deathIsEstimate, parent`firstName, parent`surnames, parent`sortList
      ensures Valid() && QueueValid() && Grows(old(tree.families), old(familyObjects)) && fresh(familyObjects - old(familyObjects))
      ensures out.Fail? ==> out == Fail(UndefinedValue)
      ensures out.Pass? ==> forall p :: p in parents[..i + 1] ==> (p.complete && p.level.Some? &&
        p.sortList == ParentSortList(sortList, p.gender == Male).value)
      ensures out.Pass? ==> parent.level == JoinedLevel(old(parent.level), family.level)
      ensures familiesToDo == if out.Pass? then QueuedUp(old(familiesToDo), parent) else old(familiesToDo)
      ensures out.Pass? ==> tree.links == links0 + ParentLinks(parents[..i + 1], family)
    {
      out := AddParentSorting(family, parent, sortList);
      assert parents[..i + 1] == parents[..i] + [parent];
    }

    /**
     * `addParentSorting(family, parent, sortList)`: set the parent up if needed and give it the
     * family's level if it has none (`JoinLevel`), then head its sort list with its place in the
     * marriage, queue its own family of origin (`QueueUp`) and link it to the family.
     */
    method AddParentSorting(family: Family, parent: Person, sortList: seq<SortItem>) returns (out: Outcome)
      requires Valid() && Closed() && QueueValid() && parent in persons && family.level.Some? && |sortList| > 0
      modifies this`familiesToDo, tree`families, tree`links, tree`levels, tree`dateRange, this`familyObjects
      modifies parent`level, parent`complete, parent`gender, parent`parentIn, parent`childOf, parent`birth,
        parent`birthIsEstimate, parent`death, parent`deathIsEstimate, parent`firstName, parent`surnames, parent`sortList
      ensures Valid() && QueueValid() && Grows(old(tree.families), old(familyObjects)) && fresh(familyObjects - old(familyObjects))
      ensures out.Fail? ==> out == Fail(UndefinedValue)
      ensures out.Pass? ==>
        parent.complete && parent.level.Some? && parent.sortList == ParentSortList(sortList, parent.gender == Male).value
      ensures out.Pass? ==> parent.level == JoinedLevel(old(parent.level), family.level)
      ensures out.Pass? ==> tree.links == old(tree.links) + [ParentLink(parent, family)]
      ensures familiesToDo == if out.Pass? then QueuedUp(old(familiesToDo), parent) else old(familiesToDo)
    {
      out := JoinLevel(family, parent);
      if out.Fail? {
        return;
      }
      assert parent.LinksValid(this);
      assert familiesToDo == old(familiesToDo);
      Attach(family, parent, sortList);
    }

    /** The rest of `addParentSorting` once the parent has a level: sort list, queueing, link. */
    method Attach(family: Family, parent: Person, sortList: seq<SortItem>)
      requires QueueValid() && parent.level.Some? && (parent.childOf != null ==> parent.childOf.handle in universe)
      requires |sortList| > 0
      modifies parent`sortList, this`familiesToDo, tree`links
      ensures QueueValid()
      ensures parent.sortList == ParentSortList(sortList, parent.gender == Male).value
      ensures tree.links == old(tree.links) + [ParentLink(parent, family)]
      ensures familiesToDo == QueuedUp(old(familiesToDo), parent)
    {
      parent.sortList := ParentSortList(sortList, parent.gender == Male).value;
      QueueUp(parent);
      tree.links := tree.links + [ParentLink(parent, family)];
    }

    /** The first part of `addParentSorting`: setup, then the level when the parent has none. */
    method JoinLevel(family: Family, parent: Person) returns (out: Outcome)
      requires Valid() && Closed() && parent in persons && family.level.Some?
      modifies tree`levels, tree`families, tree`dateRange, this`familyObjects
      modifies parent`level, parent`complete, parent`gender, parent`parentIn, parent`childOf, parent`birth,
        parent`birthIsEstimate, parent`death, parent`deathIsEstimate, parent`firstName, parent`surnames
      ensures Valid() && Grows(old(tree.families), old(familyObjects)) && fresh(familyObjects - old(familyObjects))
      ensures out.Fail? ==> out == Fail(UndefinedValue)
      ensures out.Pass? ==> parent.complete && parent.level == JoinedLevel(old(parent.level), family.level)
      ensures out.Pass? ==> tree.levels == if old(parent.level).None?
        then old(tree.levels)[family.level.value := LevelList(old(tree.levels), family.level.value) + [parent]]
        else old(tree.levels)
    {
      out := parent.SetUpOnce(this);
      if out.Fail? {
        return;
      }
      LevelParent(family, parent);
    }

    /** `if (!parent.hasOwnProperty('level')) tree.addToLevel(parent, family.level)`. */
    method LevelParent(family: Family, parent: Person)
      requires family.level.Some?
      modifies tree`levels, parent`level
      ensures parent.level == if old(parent.level).None? then family.level else old(parent.level)
      ensures old(parent.level).None? ==>
        tree.levels == old(tree.levels)[family.level.value := LevelList(old(tree.levels), family.level.value) + [parent]]
      ensures old(parent.level).Some? ==> tree.levels == old(tree.levels)
    {
      if parent.level.None? {
        tree.AddToLevel(parent, family.level.value);
      }
    }

    /** The queue `q` after `QueueUp(parent)`. */
    ghost function QueuedUp(q: OrderedMap.Map<Handle, FamilyData>, parent: Person): OrderedMap.Map<Handle, FamilyData>
      requires OrderedMap.Valid(q) && parent.level.Some?
      reads parent`childOf, parent`level, parent`sortList, tree`families, tree.families.Values`complete
    {
      if UpQueued(parent)
      then OrderedMap.Set(q, parent.childOf.handle, FamilyData(parent.level.value + 1, UpwardSorting(parent.sortList)))
      else q
    }

    /**
     * `parent.hasOwnProperty('childOf') && !tree.families[parent.childOf.handle]?.complete`:
     * the parent's family of origin is to be queued.
     */
    ghost predicate UpQueued(parent: Person)
      reads parent`childOf, tree`families, tree.families.Values`complete
    {
      parent.childOf != null && !IsComplete(parent.childOf.handle)
    }

    /** `tree.families[h]?.complete`, for a registered family that is a known object. */
    ghost predicate IsComplete(h: Handle)
      reads tree`families, tree.families.Values`complete
    {
      h in tree.families && tree.families[h].complete
    }

    /**
     * The queueing in `addParentSorting`: the parent's family of origin, one level further out,
     * with the parent's sort list headed by the family's own child slot, unless it is complete.
     * A family already queued keeps its place and takes the new entry.
     */
    method QueueUp(parent: Person)
      requires QueueValid() && parent.level.Some? && (parent.childOf != null ==> parent.childOf.handle in universe)
      modifies this`familiesToDo
      ensures QueueValid()
      ensures UpQueued(parent) ==>
        familiesToDo == OrderedMap.Set(old(familiesToDo), parent.childOf.handle,
          FamilyData(parent.level.value + 1, UpwardSorting(parent.sortList)))
      ensures !UpQueued(parent) ==> familiesToDo == old(familiesToDo)
    {
      var up := parent.childOf;
      if up != null && !(up.handle in tree.families && tree.families[up.handle].complete) {
        familiesToDo := OrderedMap.Set(familiesToDo, up.handle,
          FamilyData(parent.level.value + 1, UpwardSorting(parent.sortList)));
      }
    }

    /**
     * The children's `for` loop. It never queues a family: see `PlaceChild`. A child listed
     * twice keeps the sort list of its last position.
     */
    method ProcessChildren(family: Family, children: seq<Person>, sortList: seq<SortItem>, level: int)
      returns (out: Outcome)
      requires Valid() && Closed() && |sortList| > 0 && forall i :: 0 <= i < |children| ==> children[i] in persons
      modifies tree`families, tree`links, tree`levels, tree`dateRange, this`familyObjects
      modifies children`level, children`complete, children`gender, children`parentIn, children`childOf, children`birth,
        children`birthIsEstimate, children`death, children`deathIsEstimate, children`firstName, children`surnames, children`sortList
      ensures Valid() && Grows(old(tree.families), old(familyObjects)) && fresh(familyObjects - old(familyObjects))
      ensures out.Fail? ==> out == Fail(UndefinedValue)
      ensures out.Pass? ==> forall c :: c in children ==> (c.complete && c.level.Some? &&
        c.sortList == ChildSortList(sortList, LastIndex(children, c)).value)
      ensures out.Pass? ==> tree.links == old(tree.links) + ChildLinks(family, children)
    {
      ghost var families0, objects0, links0 := tree.families, familyObjects, tree.links;
      for i := 0 to |children|
        invariant Valid() && Grows(families0, objects0) && fresh(familyObjects - objects0)
        invariant forall c :: c in children[..i] ==> (c.complete && c.level.Some? &&
          c.sortList == ChildSortList(sortList, LastIndex(children[..i], c)).value)
        invariant tree.links == links0 + ChildLinks(family, children[..i])
      {
        out := ChildTurn(family, children, sortList, level, i, children[i], links0);
        if out.Fail? {
          return;
        }
      }
      assert children[..|children|] == children;
      out := Pass;
    }

    /** The turn of `children[i]`, which keeps the loop's invariant. */
    method ChildTurn(family: Family, children: seq<Person>, sortList: seq<SortItem>, level: int, i: nat,
                     child: Person, ghost links0: seq<Link>) returns (out: Outcome)
      requires Valid() && Closed() && |sortList| > 0 && i < |children| && children[i] == child && child in persons
      requires forall c :: c in children[..i] ==> (c.complete && c.level.Some? &&
        c.sortList == ChildSortList(sortList, LastIndex(children[..i], c)).value)
      requires tree.links == links0 + ChildLinks(family, children[..i])
      modifies tree`families, tree`links, tree`levels, tree`dateRange, this`familyObjects
      modifies child`level, child`complete, child`gender, child`parentIn, child`childOf, child`birth,
        child`birthIsEstimate, child`death, child`deathIsEstimate, child`firstName, child`surnames, child`sortList
      ensures Valid() && Grows(old(tree.families), old(familyObjects)) && fresh(familyObjects - old(familyObjects))
      ensures out.Fail? ==> out == Fail(UndefinedValue)
      ensures out.Pass? ==> forall c :: c in children[..i + 1] ==> (c.complete && c.level.Some? &&
        c.sortList == ChildSortList(sortList, LastIndex(children[..i + 1], c)).value)
      ensures out.Pass? ==> child.level == JoinedLevel(old(child.level), Some(level - 1))
      ensures out.Pass? ==> tree.links == links0 + ChildLinks(family, children[..i + 1])
    {
      out := PlaceChild(family, child, sortList, level, i);
      if out.Fail? {
        return;
      }
      forall c | c in children[..i + 1]
        ensures LastIndex(children[..i + 1], c) == if c == child then i else LastIndex(children[..i], c)
      {
        LastIndexStep(children, i, c);
      }
      assert children[..i + 1] == children[..i] + [child];
    }

    /**
     * One child: set it up if needed, give it the level below the family if it has none, its
     * sort list, and the link from the family. The source would also queue the child's own
     * family when that family is not registered; it always is, since setting a person up
     * registers its families, so that branch is never taken.
     */
    method PlaceChild(family: Family, child: Person, sortList: seq<SortItem>, level: int, i: nat)
      returns (out: Outcome)
      requires Valid() && Closed() && child in persons && |sortList| > 0
      modifies tree`levels, tree`links, tree`families, tree`dateRange, this`familyObjects
      modifies child`level, child`complete, child`gender, child`parentIn, child`childOf, child`birth,
        child`birthIsEstimate, child`death, child`deathIsEstimate, child`firstName, child`surnames, child`sortList
      ensures Valid() && Grows(old(tree.families), old(familyObjects)) && fresh(familyObjects - old(familyObjects))
      ensures out.Fail? ==> out == Fail(UndefinedValue)
      ensures out.Pass? ==> child.complete
      ensures out.Pass? ==> child.level == if old(child.level).None? then Some(level - 1) else old(child.level)
      ensures out.Pass? ==> child.sortList == ChildSortList(sortList, i).value
      ensures out.Pass? ==> tree.links == old(tree.links) + [ChildLink(family, child)]
    {
      out := child.SetUpOnce(this);
      if out.Fail? {
        return;
      }
      // the enqueue test reads neither the level nor the sort list, so it is made first here
      assert child.LinksValid(this);
      if child.parentIn != null && child.parentIn.handle !in tree.families {
        assert false;
      }
      PositionChild(family, child, sortList, level, i);
    }

    /** The child's level (when it has none), its sort list, and the family's link to it. */
    method PositionChild(family: Family, child: Person, sortList: seq<SortItem>, level: int, i: nat)
      requires Valid() && |sortList| > 0
      modifies tree`levels, tree`links, child`level, child`sortList
      ensures Valid()
      ensures child.level == if old(child.level).None? then Some(level - 1) else old(child.level)
      ensures old(child.level).None? ==>
        tree.levels == old(tree.levels)[level - 1 := LevelList(old(tree.levels), level - 1) + [child]]
      ensures old(child.level).Some? ==> tree.levels == old(tree.levels)
      ensures child.sortList == ChildSortList(sortList, i).value
      ensures tree.links == old(tree.links) + [ChildLink(family, child)]
    {
      if child.level.None? {
        tree.AddToLevel(child, level - 1);
      }
      child.sortList := ChildSortList(sortList, i).value;
      tree.links := tree.links + [ChildLink(family, child)];
    }
  }
}
