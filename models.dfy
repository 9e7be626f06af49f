/**
 * The newest model builder (src/models): a `Data` object walks the genealogy document family
 * by family from the root family, creating `Person` and `Family` objects, registering them in
 * a `Tree`, giving each family a level and a sector of the circle and each member an angle.
 * Persons and families are objects whose fields are updated in place, so they are classes here.
 */
module Models {
  import opened Wrappers
  import opened JsArrays
  import opened Dates
  import opened Document
  import opened Lifespan
  import opened Layout
  import opened Levels
  import opened Estimation
  import OrderedMap

  // =========================================================================================
  // Tree (src/models/Tree.ts)

  /** A link drawn by the graph: parent to family, or family to child. */
  datatype Link = ParentLink(parent: Person, family: Family) | ChildLink(family: Family, child: Person)

  class Tree {
    var people: map<Handle, Person>
    var families: map<Handle, Family>
    var links: seq<Link>
    var levels: map<int, seq<Person>>
    var maxLevel: int
    var dateRange: DateRange

    constructor ()
      ensures people == map[] && families == map[] && links == [] && levels == map[]
      ensures maxLevel == 0 && dateRange == DateRange(None, None)
    {
      people, families, links, levels := map[], map[], [], map[];
      maxLevel, dateRange := 0, DateRange(None, None);
    }

    /** `addToLevel(person, level)`. */
    method AddToLevel(person: Person, level: int)
      modifies this`levels, person`level
      ensures levels == old(levels)[level := AddedToLevel(LevelList(old(levels), level), person, old(person.level), level)]
      ensures person.level == Some(level)
    {
      if level !in levels {
        levels := levels[level := []];
      }
      var list := levels[level];
      if person.level.Some? && person.level.value != 0 && person.level.value != level {
        list := SpliceFrom(list, IndexOf(list, person));
      }
      levels := levels[level := list + [person]];
      person.level := Some(level);
    }

    /** `addToDateRange(d)`. */
    method AddToDateRange(d: Date)
      modifies this`dateRange
      ensures dateRange == WithDate(old(dateRange), d)
    {
      var lo := d;
      if dateRange.lo.Some? {
        lo := Min(dateRange.lo.value, d);
      }
      var hi := d;
      if dateRange.hi.Some? {
        hi := Max(dateRange.hi.value, d);
      }
      dateRange := DateRange(Some(lo), Some(hi));
    }
  }

  // =========================================================================================
  // Person (src/models/Person.ts)

  class Person {
    const handle: Handle
    var level: Option<int>
    var complete: bool
    var rotationChildren: set<Person>
    var angle: real
    var gender: Gender
    var parentIn: Family?
    var childOf: Family?
    var parentOrder: Option<int>
    var birth: Option<Date>
    var birthIsEstimate: bool
    var death: Option<Date>
    var deathIsEstimate: bool
    var firstName: string
    var surnames: seq<Surname>

    /** The date fields, as the estimation rules see them. */
    function Dates(): Dated
      reads this`birth, this`birthIsEstimate, this`death, this`deathIsEstimate
    {
      Dated(birth, birthIsEstimate, death, deathIsEstimate)
    }

    /** The field values a fresh person starts with. */
    predicate Initial()
      reads this
    {
      level.None? && !complete && rotationChildren == {} && angle == 0.0 && gender == Female &&
      parentIn == null && childOf == null && parentOrder.None? &&
      Dates() == Dated(None, true, None, true) && firstName == "" && surnames == []
    }

    /** Each of the person's families is known, registered, and one the walk can meet. */
    ghost predicate LinksValid(data: Data)
      reads this`parentIn, this`childOf, data`familyObjects, data`universe, data.tree`families
    {
      (parentIn != null ==> parentIn in data.familyObjects && data.Meets(parentIn.handle)) &&
      (childOf != null ==> childOf in data.familyObjects && data.Meets(childOf.handle))
    }

    /** The families `setup` links for the record: registered under the handles it names. */
    ghost predicate Linked(data: Data, rec: PersonRecord, in0: Family?, of0: Family?)
      reads this`parentIn, this`childOf, data.tree`families
    {
      LinkedTo(data, rec.parentIn, parentIn, in0) && LinkedTo(data, rec.childOf, childOf, of0)
    }

    /**
     * What `setup` leaves for the document's record of this person, given the fields it found
     * (`d0` the dates, `s0` the surnames, `in0` / `of0` the families).
     */
    ghost predicate Loaded(data: Data, rec: PersonRecord, d0: Dated, s0: seq<Surname>, in0: Family?, of0: Family?)
      reads this, data.tree`families, parentIn, childOf
    {
      gender == GenderOf(rec.gender) &&
      Linked(data, rec, in0, of0) &&
      firstName == (if rec.firstName.Some? then rec.firstName.value else "") &&
      surnames == s0 + rec.surnames &&
      Dates() == EstimatePerson(data.cal, data.now, WithEvents(data.doc, rec.eventRefs, d0),
        DefiniteMarriage(parentIn), DefiniteMarriage(childOf))
    }

    /**
     * `new Person(handle, data)`: a handle seen for the first time is registered and set up; a
     * registered handle gives a fresh object that is neither registered nor set up.
     */
    static method New(handle: Handle, data: Data) returns (p: Person)
      requires data.Valid() && data.Closed()
      modifies data.tree`people, data.tree`families, data.tree`dateRange, data`persons, data`familyObjects
      ensures fresh(p) && p.handle == handle
      ensures data.Valid() && data.persons == old(data.persons) + {p}
      ensures data.Grows(old(data.tree.families), old(data.familyObjects))
      ensures fresh(data.familyObjects - old(data.familyObjects)) && data.PeopleGrow(old(data.tree.people))
      ensures handle in old(data.tree.people) ==>
        p.Initial() && data.tree.people == old(data.tree.people) && unchanged(data.tree)
      ensures handle !in old(data.tree.people) ==>
        p.complete && data.tree.people == old(data.tree.people)[handle := p] &&
        p.level.None? && p.angle == 0.0 && p.parentOrder.None? && p.rotationChildren == {}
      ensures Consistent(p.Dates())
    {
      p := new Person(handle);
      data.Enroll(p);
      if handle !in data.tree.people {
        p.Register(data);
      } else {
        // "Trying to add the same person twice!"
      }
    }

    /** The fields the class declares with their initial values, before anything is read. */
    constructor (handle: Handle)
      ensures this.handle == handle && Initial()
    {
      this.handle := handle;
      level, complete, rotationChildren, angle, gender := None, false, {}, 0.0, Female;
      parentIn, childOf, parentOrder := null, null, None;
      birth, birthIsEstimate, death, deathIsEstimate := None, true, None, true;
      firstName, surnames := "", [];
    }

    /** `data.tree.people[handle] = this`, then `setup(data)`. */
    method Register(data: Data)
      requires data.Valid() && data.Closed() && this in data.persons && handle !in data.tree.people
      modifies this`complete, this`gender, this`parentIn, this`childOf, this`birth, this`birthIsEstimate,
        this`death, this`deathIsEstimate, this`firstName, this`surnames
      modifies data.tree`people, data.tree`families, data.tree`dateRange, data`familyObjects
      ensures data.Valid() && complete && data.tree.people == old(data.tree.people)[handle := this]
      ensures data.Grows(old(data.tree.families), old(data.familyObjects))
      ensures fresh(data.familyObjects - old(data.familyObjects))
      ensures handle in data.doc.people ==>
        Loaded(data, data.doc.people[handle], old(Dates()), old(surnames), old(parentIn), old(childOf))
      ensures Consistent(old(Dates())) ==> Consistent(Dates())
    {
      data.tree.people := data.tree.people[handle := this];
      Setup(data);
    }

    /** `setup(data)`: read the person's record; a missing record only marks it complete. */
    method Setup(data: Data)
      requires data.Valid() && data.Closed() && this in data.persons
      modifies this`complete, this`gender, this`parentIn, this`childOf, this`birth, this`birthIsEstimate,
        this`death, this`deathIsEstimate, this`firstName, this`surnames
      modifies data.tree`families, data.tree`dateRange, data`familyObjects
      ensures data.Valid() && complete
      ensures data.Grows(old(data.tree.families), old(data.familyObjects))
      ensures fresh(data.familyObjects - old(data.familyObjects))
      ensures level == old(level) && angle == old(angle) && parentOrder == old(parentOrder)
      ensures rotationChildren == old(rotationChildren)
      ensures handle !in data.doc.people ==>
        unchanged(data.tree) && gender == old(gender) && parentIn == old(parentIn) && childOf == old(childOf) &&
        Dates() == old(Dates()) && firstName == old(firstName) && surnames == old(surnames)
      ensures handle in data.doc.people ==>
        Loaded(data, data.doc.people[handle], old(Dates()), old(surnames), old(parentIn), old(childOf))
      ensures Consistent(old(Dates())) ==> Consistent(Dates())
      ensures handle in data.doc.people ==>
        data.tree.dateRange == WithDates(old(data.tree.dateRange),
          DatesOf(data.doc, data.doc.people[handle].eventRefs, {"Birth", "Death"}))
    {
      if handle !in data.doc.people {
        complete := true;
        return;   // "Empty Person handle"
      }
      var rec := data.doc.people[handle];
      assert rec in data.doc.people.Values;
      LinkFamilies(data, rec);
      Load(data, rec);
    }

    /** `if (!person.complete) person.setup(data)`, as the walk does for every member it places. */
    method SetUpOnce(data: Data)
      requires data.Valid() && data.Closed() && this in data.persons
      modifies this`complete, this`gender, this`parentIn, this`childOf, this`birth, this`birthIsEstimate,
        this`death, this`deathIsEstimate, this`firstName, this`surnames
      modifies data.tree`families, data.tree`dateRange, data`familyObjects
      ensures data.Valid() && complete
      ensures data.Grows(old(data.tree.families), old(data.familyObjects))
      ensures fresh(data.familyObjects - old(data.familyObjects))
      ensures level == old(level) && angle == old(angle) && parentOrder == old(parentOrder)
    {
      if !complete {
        Setup(data);
      }
    }

    /**
     * The rest of `setup` once the families are linked: gender, events, names, and `estimate()`.
     * Nothing in it reads `complete` or `gender`, so setting them here, after the links, is the
     * same as setting them first.
     */
    method Load(data: Data, rec: PersonRecord)
      modifies this`complete, this`gender, this`birth, this`birthIsEstimate, this`death, this`deathIsEstimate
      modifies this`firstName, this`surnames, data.tree`dateRange
      ensures complete && gender == GenderOf(rec.gender)
      ensures firstName == (if rec.firstName.Some? then rec.firstName.value else "")
      ensures surnames == old(surnames) + rec.surnames
      ensures Dates() == EstimatePerson(data.cal, data.now, WithEvents(data.doc, rec.eventRefs, old(Dates())),
        DefiniteMarriage(parentIn), DefiniteMarriage(childOf))
      ensures Consistent(old(Dates())) ==> Consistent(Dates())
      ensures data.tree.dateRange == WithDates(old(data.tree.dateRange), DatesOf(data.doc, rec.eventRefs, {"Birth", "Death"}))
    {
      complete := true;
      gender := GenderOf(rec.gender);
      ghost var d0 := Dates();
      ReadEvents(data, rec.eventRefs);
      firstName := if rec.firstName.Some? then rec.firstName.value else "";
      surnames := surnames + rec.surnames;
      ghost var d1 := Dates();
      Estimate(data.cal, data.now);
      if Consistent(d0) {
        WithEventsKeepsConsistent(data.doc, rec.eventRefs, d0);
        EstimateKeepsDefinite(data.cal, data.now, d1, DefiniteMarriage(parentIn), DefiniteMarriage(childOf));
      }
    }

    /** The `parentin` / `childof` part of `setup`: the registered family, else a new reference. */
    method LinkFamilies(data: Data, rec: PersonRecord)
      requires data.Valid() && data.Closed() && this in data.persons && rec in data.doc.people.Values
      modifies this`parentIn, this`childOf, data.tree`families, data`familyObjects
      ensures data.Valid() && data.Grows(old(data.tree.families), old(data.familyObjects))
      ensures fresh(data.familyObjects - old(data.familyObjects))
      ensures Linked(data, rec, old(parentIn), old(childOf))
    {
      LinkParentIn(data, rec.parentIn);
      LinkChildOf(data, rec.childOf);
      assert LinkedTo(data, rec.parentIn, parentIn, old(parentIn));
    }

    /** `parentin`: the family the person is a parent in, registered or a new reference. */
    method LinkParentIn(data: Data, named: Option<Handle>)
      requires data.Valid() && this in data.persons && (named.Some? ==> named.value in data.universe)
      modifies this`parentIn, data.tree`families, data`familyObjects
      ensures data.Valid() && data.Grows(old(data.tree.families), old(data.familyObjects))
      ensures fresh(data.familyObjects - old(data.familyObjects))
      ensures LinkedTo(data, named, parentIn, old(parentIn))
    {
      if named.Some? {
        var f := data.FamilyFor(named.value);
        SetParentIn(data, f);
      }
    }

    /** `childof`: the family the person is a child of, registered or a new reference. */
    method LinkChildOf(data: Data, named: Option<Handle>)
      requires data.Valid() && this in data.persons && (named.Some? ==> named.value in data.universe)
      modifies this`childOf, data.tree`families, data`familyObjects
      ensures data.Valid() && data.Grows(old(data.tree.families), old(data.familyObjects))
      ensures fresh(data.familyObjects - old(data.familyObjects))
      ensures LinkedTo(data, named, childOf, old(childOf))
    {
      if named.Some? {
        var f := data.FamilyFor(named.value);
        SetChildOf(data, f);
      }
    }

    method SetParentIn(data: Data, f: Family)
      requires data.PersonsValid() && this in data.persons && f in data.familyObjects && data.Meets(f.handle)
      modifies this`parentIn
      ensures data.PersonsValid() && parentIn == f
    {
      parentIn := f;
      assert LinksValid(data);
    }

    method SetChildOf(data: Data, f: Family)
      requires data.PersonsValid() && this in data.persons && f in data.familyObjects && data.Meets(f.handle)
      modifies this`childOf
      ensures data.PersonsValid() && childOf == f
    {
      childOf := f;
      assert LinksValid(data);
    }

    /** The `eventref` loop of `setup`. */
    method ReadEvents(data: Data, refs: seq<Handle>)
      modifies this`birth, this`birthIsEstimate, this`death, this`deathIsEstimate, data.tree`dateRange
      ensures Dates() == WithEvents(data.doc, refs, old(Dates()))
      ensures data.tree.dateRange == WithDates(old(data.tree.dateRange), DatesOf(data.doc, refs, {"Birth", "Death"}))
    {
      ghost var d0, r0 := Dates(), data.tree.dateRange;
      for i := 0 to |refs|
        invariant Dates() == WithEvents(data.doc, refs[..i], d0)
        invariant data.tree.dateRange == WithDates(r0, DatesOf(data.doc, refs[..i], {"Birth", "Death"}))
      {
        var r := refs[i];
        EventStep(data.doc, refs, i, d0);
        if IsEvent(data.doc, r, "Birth") || IsEvent(data.doc, r, "Death") {
          WithDatesSnoc(r0, DatesOf(data.doc, refs[..i], {"Birth", "Death"}), data.doc.events[r].date);
        }
        ReadEvent(data.doc, data.tree, r);
      }
      assert refs[..|refs|] == refs;
    }

    /** One event of the record: a birth or death event sets that date as definite and widens the range. */
    method ReadEvent(doc: Doc, tree: Tree, r: Handle)
      modifies this`birth, this`birthIsEstimate, this`death, this`deathIsEstimate, tree`dateRange
      ensures IsEvent(doc, r, "Birth") ==>
        Dates() == old(Dates()).(birth := Some(doc.events[r].date), birthIsEstimate := false) &&
        tree.dateRange == WithDate(old(tree.dateRange), doc.events[r].date)
      ensures !IsEvent(doc, r, "Birth") && IsEvent(doc, r, "Death") ==>
        Dates() == old(Dates()).(death := Some(doc.events[r].date), deathIsEstimate := false) &&
        tree.dateRange == WithDate(old(tree.dateRange), doc.events[r].date)
      ensures !IsEvent(doc, r, "Birth") && !IsEvent(doc, r, "Death") ==>
        Dates() == old(Dates()) && tree.dateRange == old(tree.dateRange)
    {
      if IsEvent(doc, r, "Birth") {
        birth, birthIsEstimate := Some(doc.events[r].date), false;
        tree.AddToDateRange(birth.value);
      } else if IsEvent(doc, r, "Death") {
        death, deathIsEstimate := Some(doc.events[r].date), false;
        tree.AddToDateRange(death.value);
      }
    }

    /** `estimate()`: infer missing dates from the lifespan and the two families' definite marriages. */
    method Estimate(cal: Calendar, now: Date)
      modifies this`birth, this`death
      ensures Dates() == EstimatePerson(cal, now, old(Dates()), DefiniteMarriage(parentIn), DefiniteMarriage(childOf))
    {
      if birth.Some? && deathIsEstimate {
        if cal.yearsBetween(birth.value, now) > LifespanNow(cal, Newest, now) {
          death := Some(DeathAfter(cal, Newest, birth.value));
        }
      } else if death.Some? && birthIsEstimate {
        birth := Some(cal.addYears(death.value, -FromDeathYear(Newest, cal.utcYear(death.value) as real)));
      }
      if birth.None? && parentIn != null && parentIn.marriage.Recorded? {
        birth := Some(cal.addYears(parentIn.marriage.date, -20.0));
      }
      if childOf != null && birthIsEstimate && childOf.marriage.Recorded? {
        if birth.None? || birth.value < childOf.marriage.date {
          birth := Some(cal.addYears(childOf.marriage.date, 1.0));
        }
      }
    }

    /**
     * `getRotationChildren()`: a person without `childOf` rotates nothing; otherwise the walk
     * starts at `childOf` with this person as its source and with this person as the only
     * seed, and its result is stored in `rotationChildren`. The walk runs over the known
     * families `fs` and persons `ps`, whose links are closed (`Data.LinksClosed`).
     */
    method GetRotationChildren(ghost fs: set<Family>, ghost ps: set<Person>)
      returns (r: set<Person>, ghost g: Links, ghost walked: Worklist)
      requires ClosedLinks(Snapshot(fs, ps)) && this in ps
      modifies this`rotationChildren
      ensures g == old(Snapshot(fs, ps))
      ensures childOf == null ==> r == {} && rotationChildren == old(rotationChildren)
      ensures childOf != null ==> rotationChildren == r
      ensures childOf != null ==> RotationWalk(g, [(childOf, this)], Some([this]), this, walked, r)
    {
      g := Snapshot(fs, ps);
      if childOf == null {
        return {}, g, [];
      }
      r, walked := RotationSet(fs, ps, g, [(childOf, this)], Some([this]), this);
      rotationChildren := r;
    }
  }

  /** Reading the Marriage events: the last one's date, recorded, else the marriage as it was. */
  function MarriageFrom(last: Option<Date>, m0: Marriage): Marriage {
    if last.Some? then Recorded(last.value) else m0
  }

  /** `link` is the family registered under `named` when the record names one, else `link0`. */
  ghost predicate LinkedTo(data: Data, named: Option<Handle>, link: Family?, link0: Family?)
    reads data.tree`families
  {
    if named.Some? then link != null && link.handle == named.value &&
      named.value in data.tree.families && data.tree.families[named.value] == link
    else link == link0
  }

  /** The family's marriage when it is definite (not an estimate), else None. */
  function DefiniteMarriage(f: Family?): Option<Date>
    reads f
  {
    if f != null && f.marriage.Recorded? then Some(f.marriage.date) else None
  }

  /**
   * A family's `marriage` together with its `marriageIsEstimate` flag. The flag starts set and
   * is cleared only where a Marriage event sets the date, so a cleared flag always comes with a
   * date: the pair is one value.
   */
  datatype Marriage = Estimated(estimate: Option<Date>) | Recorded(date: Date)

  /** `marriage`, whichever flag it carries. */
  function DateOf(m: Marriage): Option<Date> {
    if m.Recorded? then Some(m.date) else m.estimate
  }

  /** The date fields of a list of persons. */
  function Views(ps: seq<Person>): (vs: seq<Dated>)
    reads ps`birth, ps`birthIsEstimate, ps`death, ps`deathIsEstimate
    ensures |vs| == |ps| && forall i :: 0 <= i < |ps| ==> vs[i] == ps[i].Dates()
  {
    if |ps| == 0 then [] else Views(ps[..|ps| - 1]) + [ps[|ps| - 1].Dates()]
  }

  /** The surname lists of a list of persons. */
  function SurnameLists(ps: seq<Person>): (ss: seq<seq<Surname>>)
    reads ps`surnames
    ensures |ss| == |ps| && forall i :: 0 <= i < |ps| ==> ss[i] == ps[i].surnames
  {
    if |ps| == 0 then [] else SurnameLists(ps[..|ps| - 1]) + [ps[|ps| - 1].surnames]
  }

  function Handles(ps: seq<Person>): (hs: seq<Handle>)
    ensures |hs| == |ps| && forall i :: 0 <= i < |ps| ==> hs[i] == ps[i].handle
  {
    seq(|ps|, i requires 0 <= i < |ps| => ps[i].handle)
  }

  lemma HandlesSnoc(ps: seq<Person>, p: Person)
    ensures Handles(ps + [p]) == Handles(ps) + [p.handle]
  {
    assert (ps + [p])[..|ps|] == ps;
  }

  // =========================================================================================
  // Family (src/models/Family.ts)

  class Family {
    const handle: Handle
    var level: Option<int>
    var complete: bool
    var rotationChildren: set<Person>
    var parents: seq<Person>
    var marriage: Marriage
    var children: seq<Person>
    var name: Option<string>

    /** The members are known persons. */
    ghost predicate MembersValid(data: Data)
      reads this`parents, this`children, data`persons
    {
      (forall i :: 0 <= i < |parents| ==> parents[i] in data.persons) &&
      (forall i :: 0 <= i < |children| ==> children[i] in data.persons)
    }

    /** `new Family(handle, data, false)`: a reference, registered but not set up. */
    constructor (handle: Handle, data: Data)
      modifies data.tree`families, data`familyObjects
      ensures this.handle == handle && level.None? && !complete && rotationChildren == {}
      ensures parents == [] && children == [] && marriage == Estimated(None) && name.None?
      ensures data.tree.families == old(data.tree.families)[handle := this]
      ensures data.familyObjects == old(data.familyObjects) + {this}
    {
      this.handle := handle;
      level, complete, rotationChildren := None, false, {};
      parents, marriage, children, name := [], Estimated(None), [], None;
      new;
      data.tree.families := data.tree.families[handle := this];
      data.familyObjects := data.familyObjects + {this};
    }

    /**
     * `setup(data)`: read the family's record, then `estimate()`. A handle with no record throws
     * "Empty family".
     */
    method Setup(data: Data) returns (out: Outcome)
      requires data.Valid() && data.Closed() && this in data.familyObjects
      modifies this`parents, this`children, this`marriage, this`name, this`complete, data.tree`people,
        data.tree`families, data.tree`dateRange, data`persons, data`familyObjects
      modifies data.persons`birth, data.persons`death
      ensures data.Valid() && complete
      ensures data.Grows(old(data.tree.families), old(data.familyObjects)) && data.PeopleGrow(old(data.tree.people))
      ensures fresh(data.persons - old(data.persons)) && fresh(data.familyObjects - old(data.familyObjects))
      ensures handle !in data.doc.families ==> out == Fail(EmptyFamily)
      ensures handle in data.doc.families ==>
        var rec := data.doc.families[handle];
        Handles(parents) == Handles(old(parents)) + ParentHandles(rec) &&
        Handles(children) == Handles(old(children)) + ChildHandles(rec.childRefs)
      ensures out.Fail? ==> out.error in {EmptyFamily, NoMarriageData}
      ensures out.Pass? ==> DateOf(marriage).Some?
    {
      if handle !in data.doc.families {
        complete := true;
        return Fail(EmptyFamily);
      }
      var rec := data.doc.families[handle];
      Load(data, rec);
      out := Finish(data);
    }

    /**
     * `estimate()`, and the `complete = true` that `setup` starts with: nothing in the record's
     * reading looks at `complete`, so setting it here is the same.
     */
    method Finish(data: Data) returns (out: Outcome)
      requires data.Valid() && data.Closed() && this in data.familyObjects
      modifies this`marriage, this`complete, parents`birth, parents`death, children`birth, children`death
      ensures data.Valid() && complete
      ensures out.Fail? ==> out == Fail(NoMarriageData)
      ensures out.Pass? ==> DateOf(marriage).Some?
      ensures old(marriage).Estimated? && MarriageEstimate(data.cal, old(Views(parents)), old(Views(children))).Err? ==>
        out == Fail(NoMarriageData)
      ensures out.Pass? ==>
        marriage == (if old(marriage).Estimated?
          then Estimated(Some(MarriageEstimate(data.cal, old(Views(parents)), old(Views(children))).value)) else old(marriage))
      ensures out.Pass? ==> Filled(data.cal, DateOf(marriage).value, old(Unfixeds(parents)), old(Unfixeds(children)))
    {
      out := Estimate(data);
      complete := true;
    }

    /** The part of `setup` that reads the record: parents, marriage events, children, name. */
    method Load(data: Data, rec: FamilyRecord)
      requires data.Valid() && data.Closed() && this in data.familyObjects
      modifies this`parents, this`children, this`marriage, this`name
      modifies data.tree`people, data.tree`families, data.tree`dateRange, data`persons, data`familyObjects
      ensures data.Valid()
      ensures data.Grows(old(data.tree.families), old(data.familyObjects)) && data.PeopleGrow(old(data.tree.people))
      ensures fresh(data.persons - old(data.persons)) && fresh(data.familyObjects - old(data.familyObjects))
      ensures Handles(parents) == Handles(old(parents)) + ParentHandles(rec)
      ensures Handles(children) == Handles(old(children)) + ChildHandles(rec.childRefs)
      ensures marriage == MarriageFrom(LastDate(data.doc, rec.eventRefs, "Marriage"), old(marriage))
      ensures name == Some(FamilyName(SurnameLists(parents)))
    {
      LoadParents(data, rec);
      LoadRest(data, rec);
    }

    /** The rest of the record once the parents are pushed: marriage events, children, name. */
    method LoadRest(data: Data, rec: FamilyRecord)
      requires data.Valid() && data.Closed() && this in data.familyObjects
      modifies this`children, this`marriage, this`name
      modifies data.tree`people, data.tree`families, data.tree`dateRange, data`persons, data`familyObjects
      ensures data.Valid()
      ensures data.Grows(old(data.tree.families), old(data.familyObjects)) && data.PeopleGrow(old(data.tree.people))
      ensures fresh(data.persons - old(data.persons)) && fresh(data.familyObjects - old(data.familyObjects))
      ensures Handles(children) == Handles(old(children)) + ChildHandles(rec.childRefs)
      ensures marriage == MarriageFrom(LastDate(data.doc, rec.eventRefs, "Marriage"), old(marriage))
      ensures name == Some(FamilyName(SurnameLists(parents)))
    {
      ReadMarriage(data, rec.eventRefs);
      LoadMembers(data, rec);
    }

    /** Children, then the name, once the marriage is read. */
    method LoadMembers(data: Data, rec: FamilyRecord)
      requires data.Valid() && data.Closed() && this in data.familyObjects
      modifies this`children, this`name
      modifies data.tree`people, data.tree`families, data.tree`dateRange, data`persons, data`familyObjects
      ensures data.Valid()
      ensures data.Grows(old(data.tree.families), old(data.familyObjects)) && data.PeopleGrow(old(data.tree.people))
      ensures fresh(data.persons - old(data.persons)) && fresh(data.familyObjects - old(data.familyObjects))
      ensures Handles(children) == Handles(old(children)) + ChildHandles(rec.childRefs)
      ensures name == Some(FamilyName(SurnameLists(parents)))
    {
      LoadChildren(data, rec.childRefs);
      SetName();
    }

    /** `this.name = …`: the first parent's taken surname, else "Unknown". */
    method SetName()
      modifies this`name
      ensures name == Some(FamilyName(SurnameLists(parents)))
    {
      name := Some(FamilyName(SurnameLists(parents)));
    }

    /** `parents.push(new Person(father))`, then the same for the mother. */
    method LoadParents(data: Data, rec: FamilyRecord)
      requires data.Valid() && data.Closed() && this in data.familyObjects
      modifies this`parents, data.tree`people, data.tree`families, data.tree`dateRange, data`persons,
        data`familyObjects
      ensures data.Valid()
      ensures data.Grows(old(data.tree.families), old(data.familyObjects)) && data.PeopleGrow(old(data.tree.people))
      ensures fresh(data.persons - old(data.persons)) && fresh(data.familyObjects - old(data.familyObjects))
      ensures Handles(parents) == Handles(old(parents)) + ParentHandles(rec)
      ensures forall i :: |old(parents)| <= i < |parents| ==> fresh(parents[i])
    {
      if rec.father.Some? {
        var p := LoadParent(data, rec.father.value);
      }
      if rec.mother.Some? {
        var p := LoadParent(data, rec.mother.value);
      }
    }

    /** One `parents.push(new Person(handle, data))`: always a new object. */
    method LoadParent(data: Data, h: Handle) returns (p: Person)
      requires data.Valid() && data.Closed() && this in data.familyObjects
      modifies this`parents, data.tree`people, data.tree`families, data.tree`dateRange, data`persons,
        data`familyObjects
      ensures data.Valid()
      ensures data.Grows(old(data.tree.families), old(data.familyObjects)) && data.PeopleGrow(old(data.tree.people))
      ensures data.persons == old(data.persons) + {p} && fresh(data.familyObjects - old(data.familyObjects))
      ensures fresh(p) && p.handle == h && parents == old(parents) + [p]
      ensures Handles(parents) == Handles(old(parents)) + [h]
    {
      p := Person.New(h, data);
      HandlesSnoc(parents, p);
      AddParent(data, p);
    }

    method AddParent(data: Data, p: Person)
      requires data.FamiliesValid() && this in data.familyObjects && p in data.persons
      modifies this`parents
      ensures data.FamiliesValid() && parents == old(parents) + [p]
    {
      parents := parents + [p];
    }

    /** The `eventref` loop of `setup`: each Marriage event sets the marriage and clears its flag. */
    method ReadMarriage(data: Data, refs: seq<Handle>)
      modifies this`marriage, data.tree`dateRange
      ensures marriage == MarriageFrom(LastDate(data.doc, refs, "Marriage"), old(marriage))
      ensures data.tree.dateRange == WithDates(old(data.tree.dateRange), DatesOf(data.doc, refs, {"Marriage"}))
    {
      ghost var m0, r0 := marriage, data.tree.dateRange;
      for i := 0 to |refs|
        invariant marriage == MarriageFrom(LastDate(data.doc, refs[..i], "Marriage"), m0)
        invariant data.tree.dateRange == WithDates(r0, DatesOf(data.doc, refs[..i], {"Marriage"}))
      {
        EventRefStep(data.doc, refs, i, "Marriage");
        var r := refs[i];
        if IsEvent(data.doc, r, "Marriage") {
          marriage := Recorded(data.doc.events[r].date);
          WithDatesSnoc(r0, DatesOf(data.doc, refs[..i], {"Marriage"}), marriage.date);
          assert DatesOf(data.doc, refs[..i + 1], {"Marriage"}) == DatesOf(data.doc, refs[..i], {"Marriage"}) + [marriage.date];
          data.tree.AddToDateRange(marriage.date);
          assert data.tree.dateRange == WithDates(r0, DatesOf(data.doc, refs[..i + 1], {"Marriage"}));
        } else {
          assert DatesOf(data.doc, refs[..i + 1], {"Marriage"}) == DatesOf(data.doc, refs[..i], {"Marriage"});
        }
      }
      assert refs[..|refs|] == refs;
    }

    /** The `childref` loop of `setup`: the registered person, else a new one. */
    method LoadChildren(data: Data, refs: seq<Option<Handle>>)
      requires data.Valid() && data.Closed() && this in data.familyObjects
      modifies this`children, data.tree`people, data.tree`families, data.tree`dateRange, data`persons,
        data`familyObjects
      ensures data.Valid()
      ensures data.Grows(old(data.tree.families), old(data.familyObjects)) && data.PeopleGrow(old(data.tree.people))
      ensures fresh(data.persons - old(data.persons)) && fresh(data.familyObjects - old(data.familyObjects))
      ensures Handles(children) == Handles(old(children)) + ChildHandles(refs)
    {
      ghost var hs0 := Handles(children);
      for i := 0 to |refs|
        invariant data.Valid() && this in data.familyObjects
        invariant data.Grows(old(data.tree.families), old(data.familyObjects)) && data.PeopleGrow(old(data.tree.people))
        invariant fresh(data.persons - old(data.persons)) && fresh(data.familyObjects - old(data.familyObjects))
        invariant Handles(children) == hs0 + ChildHandles(refs[..i])
      {
        ChildHandlesStep(refs, i);
        LoadChildRef(data, refs[i]);
      }
      assert refs[..|refs|] == refs;
    }

    /** One `childref`: skipped when it names no handle. */
    method LoadChildRef(data: Data, r: Option<Handle>)
      requires data.Valid() && data.Closed() && this in data.familyObjects
      modifies this`children, data.tree`people, data.tree`families, data.tree`dateRange, data`persons,
        data`familyObjects
      ensures data.Valid()
      ensures data.Grows(old(data.tree.families), old(data.familyObjects)) && data.PeopleGrow(old(data.tree.people))
      ensures fresh(data.persons - old(data.persons)) && fresh(data.familyObjects - old(data.familyObjects))
      ensures Handles(children) == Handles(old(children)) + if r.Some? && r.value != "" then [r.value] else []
    {
      if r.Some? && r.value != "" {
        LoadChild(data, r.value);
      }
    }

    /** One `childref`: `data.tree.people[handle] || new Person(handle, data)`, pushed. */
    method LoadChild(data: Data, h: Handle)
      requires data.Valid() && data.Closed() && this in data.familyObjects
      modifies this`children, data.tree`people, data.tree`families, data.tree`dateRange, data`persons,
        data`familyObjects
      ensures data.Valid()
      ensures data.Grows(old(data.tree.families), old(data.familyObjects)) && data.PeopleGrow(old(data.tree.people))
      ensures fresh(data.persons - old(data.persons)) && fresh(data.familyObjects - old(data.familyObjects))
      ensures |children| == |old(children)| + 1 && children[..|old(children)|] == old(children)
      ensures Handles(children) == Handles(old(children)) + [h]
      ensures var c := children[|children| - 1];
        h in data.tree.people && data.tree.people[h] == c &&
        (h in old(data.tree.people) ==> c == old(data.tree.people[h]))
    {
      var c: Person;
      if h in data.tree.people {
        c := data.tree.people[h];
      } else {
        c := Person.New(h, data);
      }
      HandlesSnoc(children, c);
      AddChild(data, c);
    }

    method AddChild(data: Data, c: Person)
      requires data.FamiliesValid() && this in data.familyObjects && c in data.persons
      modifies this`children
      ensures data.FamiliesValid() && children == old(children) + [c]
    {
      children := children + [c];
    }

    /**
     * `getRotationChildren()`: the walk starts at this family with its first child as the source
     * (none when it has no children) and no seeds, and its result is stored in
     * `rotationChildren`. The walk runs over the known families `fs` and persons `ps`, whose
     * links are closed (`Data.LinksClosed`).
     */
    method GetRotationChildren(ghost fs: set<Family>, ghost ps: set<Person>)
      returns (r: set<Person>, ghost g: Links, ghost walked: Worklist)
      requires ClosedLinks(Snapshot(fs, ps)) && this in fs
      modifies this`rotationChildren
      ensures g == old(Snapshot(fs, ps))
      ensures rotationChildren == r
      ensures RotationWalk(g, [(this, if |children| > 0 then children[0] else null)], None, null, walked, r)
    {
      g := Snapshot(fs, ps);
      var first: Person? := if |children| > 0 then children[0] else null;
      r, walked := RotationSet(fs, ps, g, [(this, first)], None, null);
      rotationChildren := r;
    }

    /**
     * `estimate()`: a marriage that is an estimate is recomputed from the members' births
     * (throwing when there is nothing to go on); then parents and children whose dates are both
     * estimates are filled in from the marriage.
     */
    method Estimate(data: Data) returns (out: Outcome)
      requires data.Valid()
      modifies this`marriage, parents`birth, parents`death, children`birth, children`death
      ensures data.Valid()
      ensures old(marriage).Estimated? && MarriageEstimate(data.cal, old(Views(parents)), old(Views(children))).Err? ==>
        out == Fail(NoMarriageData) && marriage == old(marriage) &&
        forall p :: p in parents + children ==> p.birth == old(p.birth) && p.death == old(p.death)
      ensures out.Pass? ==>
        marriage == (if old(marriage).Estimated?
          then Estimated(Some(MarriageEstimate(data.cal, old(Views(parents)), old(Views(children))).value)) else old(marriage))
      ensures out.Pass? ==> (DateOf(marriage).Some? &&
        Filled(data.cal, DateOf(marriage).value, old(Unfixeds(parents)), old(Unfixeds(children))))
      ensures out.Fail? ==> out == Fail(NoMarriageData) && old(marriage).Estimated? && marriage == old(marriage)
    {
      // The filters read only the estimate flags, which nothing here changes: taking them
      // before the marriage estimate is the same as taking them after it.
      var qp := Unfixeds(parents);
      var qc := Unfixeds(children);
      if marriage.Estimated? {
        var r := MarriageEstimate(data.cal, Views(parents), Views(children));
        if r.Err? {
          return Fail(r.error);
        }
        marriage := Estimated(Some(r.value));
      }
      FillIn(data, DateOf(marriage).value, qp, qc);
      out := Pass;
    }

    /** The two fill-in loops, from the marriage now known. */
    static method FillIn(data: Data, m: Date, qp: seq<Person>, qc: seq<Person>)
      requires data.Valid()
      modifies qp`birth, qp`death, qc`birth, qc`death
      ensures data.Valid()
      ensures Filled(data.cal, m, qp, qc)
    {
      FillParents(data.cal, m, qp);
      FillChildren(data.cal, m, qc);
    }

    /** The parents' `forEach`: every listed parent is born 25 years before the marriage. */
    static method FillParents(cal: Calendar, m: Date, q: seq<Person>)
      modifies q`birth, q`death
      ensures forall p :: p in q ==> (p.birth == Some(ParentBirth(cal, m)) &&
        p.death == Some(DeathAfter(cal, Newest, ParentBirth(cal, m))))
    {
      for i := 0 to |q|
        invariant forall p :: p in q[..i] ==> (p.birth == Some(ParentBirth(cal, m)) &&
          p.death == Some(DeathAfter(cal, Newest, ParentBirth(cal, m))))
      {
        assert q[..i + 1] == q[..i] + [q[i]];
        q[i].birth := Some(ParentBirth(cal, m));
        q[i].death := Some(DeathAfter(cal, Newest, q[i].birth.value));
      }
      assert q[..|q|] == q;
    }

    /**
     * The children's `forEach((c, i) => …)`: the `i`-th listed child is born `2 + 2i` years after
     * the marriage; a child listed twice keeps the dates of its last position.
     */
    static method FillChildren(cal: Calendar, m: Date, q: seq<Person>)
      modifies q`birth, q`death
      ensures forall p :: p in q ==> (p.birth == Some(ChildBirth(cal, m, LastIndex(q, p))) &&
        p.death == Some(DeathAfter(cal, Newest, ChildBirth(cal, m, LastIndex(q, p)))))
    {
      for i := 0 to |q|
        invariant forall p :: p in q[..i] ==> (p.birth == Some(ChildBirth(cal, m, LastIndex(q[..i], p))) &&
          p.death == Some(DeathAfter(cal, Newest, ChildBirth(cal, m, LastIndex(q[..i], p)))))
      {
        var c := q[i];
        c.birth := Some(ChildBirth(cal, m, i));
        c.death := Some(DeathAfter(cal, Newest, c.birth.value));
        forall p | p in q[..i + 1]
          ensures LastIndex(q[..i + 1], p) == if p == c then i else LastIndex(q[..i], p)
        {
          LastIndexStep(q, i, p);
        }
      }
      assert q[..|q|] == q;
    }
  }

  /** The `childref` handles, skipping a missing or empty `hlink` (`if (!handle)`). */
  function ChildHandles(refs: seq<Option<Handle>>): (hs: seq<Handle>)
    ensures |hs| <= |refs|
    ensures forall i :: 0 <= i < |hs| ==> hs[i] != ""
  {
    if |refs| == 0 then []
    else
      var last := refs[|refs| - 1];
      ChildHandles(refs[..|refs| - 1]) + (if last.Some? && last.value != "" then [last.value] else [])
  }

  lemma ChildHandlesStep(refs: seq<Option<Handle>>, i: nat)
    requires i < |refs|
    ensures ChildHandles(refs[..i + 1]) ==
      ChildHandles(refs[..i]) + if refs[i].Some? && refs[i].value != "" then [refs[i].value] else []
  {
    assert refs[..i + 1][..i] == refs[..i];
  }

  /** Both of the person's dates are estimates: the fill-in may overwrite them. */
  predicate Unfixed(p: Person)
    reads p`birthIsEstimate, p`deathIsEstimate
  {
    p.birthIsEstimate && p.deathIsEstimate
  }

  /** `ps.filter((p) => p.birthIsEstimate && p.deathIsEstimate)`. */
  function Unfixeds(ps: seq<Person>): (r: seq<Person>)
    reads ps`birthIsEstimate, ps`deathIsEstimate
    decreases |ps|
    ensures forall i :: 0 <= i < |r| ==> r[i] in ps && Unfixed(r[i])
    ensures forall i :: 0 <= i < |ps| && Unfixed(ps[i]) ==> ps[i] in r
  {
    if |ps| == 0 then []
    else
      var init := Unfixeds(ps[..|ps| - 1]);
      assert forall i :: 0 <= i < |ps| - 1 ==> ps[..|ps| - 1][i] == ps[i];
      init + (if Unfixed(ps[|ps| - 1]) then [ps[|ps| - 1]] else [])
  }

  /**
   * The result of the two fill-in loops, given the parents and children they listed (those
   * whose dates were both estimates): children by their last position, other parents alike.
   */
  ghost predicate Filled(cal: Calendar, m: Date, qp: seq<Person>, qc: seq<Person>)
    reads qp`birth, qp`death, qc`birth, qc`death
  {
    (forall p :: p in qc ==> (p.birth == Some(ChildBirth(cal, m, LastIndex(qc, p))) &&
      p.death == Some(DeathAfter(cal, Newest, ChildBirth(cal, m, LastIndex(qc, p)))))) &&
    (forall p :: p in qp && p !in qc ==> (p.birth == Some(ParentBirth(cal, m)) &&
      p.death == Some(DeathAfter(cal, Newest, ParentBirth(cal, m)))))
  }

  // =========================================================================================
  // Data (src/models/Data.ts)

  /** `ps.filter((p) => p !== sourcePerson)`: the source object left out, when there is one. */
  function OthersThan(ps: seq<Person>, source: Person?): seq<Person> {
    if source == null then ps else Without(ps, source)
  }

  /**
   * Where the queue entry's source person sits in the family: `findIndex` by handle among the
   * parents, then among the children.
   */
  function SlotOf(source: Person?, parents: seq<Person>, children: seq<Person>): (s: SourceSlot)
    reads source
    ensures source == null <==> s.NoSource?
    ensures s.AtParent? ==> (source != null && s.angle == source.angle &&
      0 <= s.index < |parents| && parents[s.index].handle == source.handle &&
      forall j :: 0 <= j < s.index ==> parents[j].handle != source.handle)
    ensures s.AtChild? ==> (source != null && s.angle == source.angle && s.count == |children| &&
      (forall p :: p in parents ==> p.handle != source.handle) &&
      0 <= s.index < |children| && children[s.index].handle == source.handle &&
      forall j :: 0 <= j < s.index ==> children[j].handle != source.handle)
    ensures s.Missing? <==> (source != null &&
      (forall p :: p in parents ==> p.handle != source.handle) && (forall c :: c in children ==> c.handle != source.handle))
  {
    if source == null then NoSource
    else
      var i := IndexOf(Handles(parents), source.handle);
      if i != -1 then AtParent(source.angle, i)
      else
        var j := IndexOf(Handles(children), source.handle);
        if j != -1 then AtChild(source.angle, j, |children|) else Missing
  }

  /** The links `addParentSorting` pushes for `ps`, in order. */
  function ParentLinks(ps: seq<Person>, f: Family): (ls: seq<Link>)
    ensures |ls| == |ps| && forall i :: 0 <= i < |ps| ==> ls[i] == ParentLink(ps[i], f)
  {
    if |ps| == 0 then [] else ParentLinks(ps[..|ps| - 1], f) + [ParentLink(ps[|ps| - 1], f)]
  }

  /** The links the children's loop pushes for `cs`, in order. */
  function ChildLinks(f: Family, cs: seq<Person>): (ls: seq<Link>)
    ensures |ls| == |cs| && forall i :: 0 <= i < |cs| ==> ls[i] == ChildLink(f, cs[i])
  {
    if |cs| == 0 then [] else ChildLinks(f, cs[..|cs| - 1]) + [ChildLink(f, cs[|cs| - 1])]
  }

  /** From the first registry and object set to the second, nothing is dropped or replaced. */
  ghost predicate GrowsFrom(families0: map<Handle, Family>, objects0: set<Family>,
                            families1: map<Handle, Family>, objects1: set<Family>) {
    objects0 <= objects1 && forall h :: h in families0 ==> h in families1 && families1[h] == families0[h]
  }

  /** A queued family's level and the person it was reached from. */
  datatype FamilyData = FamilyData(level: int, source: Person?)

  class Data {
    const tree: Tree
    const doc: Doc
    const cal: Calendar
    const now: Date
    var familiesToDo: OrderedMap.Map<Handle, FamilyData>
    /** The family handles the walk can meet: the root and every family a person record names. */
    ghost var universe: set<Handle>
    /** Every person and family object created so far. */
    ghost var persons: set<Person>
    ghost var familyObjects: set<Family>

    /** `new Data(xmlDoc)` up to its call of `parseData`: an empty tree and an empty queue. */
    constructor (doc: Doc, cal: Calendar, now: Date)
      ensures this.doc == doc && this.cal == cal && this.now == now && fresh(tree)
      ensures tree.people == map[] && tree.families == map[] && tree.links == [] && tree.levels == map[]
      ensures tree.maxLevel == 0 && tree.dateRange == DateRange(None, None)
      ensures familiesToDo == [] && persons == {} && familyObjects == {}
      ensures Valid()
    {
      this.doc, this.cal, this.now := doc, cal, now;
      tree := new Tree();
      familiesToDo, universe, persons, familyObjects := [], {}, {}, {};
    }

    /** Every family a person record names is one the walk can meet. */
    ghost predicate Closed()
      reads this`universe
    {
      (forall r :: r in doc.people.Values && r.parentIn.Some? ==> r.parentIn.value in universe) &&
      (forall r :: r in doc.people.Values && r.childOf.Some? ==> r.childOf.value in universe)
    }

    /**
     * What every step keeps: registries point at known objects, members at known persons, links
     * at registered families. The queue's own invariant is `QueueValid`.
     */
    ghost predicate Valid()
      reads this`universe, this`persons, this`familyObjects, tree`families, tree`people
      reads persons`parentIn, persons`childOf, familyObjects`parents, familyObjects`children
    {
      RegistryValid() && FamiliesValid() && PersonsValid()
    }

    /** A person object just allocated joins the known objects; it has no family links yet. */
    method Enroll(p: Person)
      requires Valid() && p !in persons && p.parentIn == null && p.childOf == null
      modifies this`persons
      ensures Valid() && persons == old(persons) + {p}
    {
      persons := persons + {p};
      assert p.LinksValid(this);
    }

    /** The queue is a map whose keys the walk can meet. */
    ghost predicate QueueValid()
      reads this`familiesToDo, this`universe
    {
      OrderedMap.Valid(familiesToDo) &&
      forall i :: 0 <= i < |familiesToDo| ==> familiesToDo[i].0 in universe
    }

    /** Each registered family and person is a known object, registered under its handle. */
    ghost predicate RegistryValid()
      reads this`persons, this`familyObjects, tree`families, tree`people
    {
      (forall h :: h in tree.families ==> tree.families[h] in familyObjects && tree.families[h].handle == h) &&
      (forall h :: h in tree.people ==> tree.people[h] in persons && tree.people[h].handle == h)
    }

    /** Each family's members are known persons. */
    ghost predicate FamiliesValid()
      reads this`persons, this`familyObjects, familyObjects`parents, familyObjects`children
    {
      forall f :: f in familyObjects ==> f.MembersValid(this)
    }

    /** A family handle that is registered and that the walk can meet. */
    ghost predicate Meets(h: Handle)
      reads this`universe, tree`families
    {
      h in tree.families && h in universe
    }

    /** Each person's families are known, registered, and among the handles the walk can meet. */
    ghost predicate PersonsValid()
      reads this`persons, this`familyObjects, this`universe, tree`families, persons`parentIn, persons`childOf
    {
      forall p :: p in persons ==> p.LinksValid(this)
    }

    /** The links of every known object form a closed graph, so the rotation walk stays inside them. */
    lemma LinksClosed()
      requires Valid()
      ensures ClosedLinks(Snapshot(familyObjects, persons))
    {
      var g := Snapshot(familyObjects, persons);
      forall f, p | f in g.members && p in g.members[f].0 ensures p in g.next {
        assert f.MembersValid(this);
      }
      forall f, p | f in g.members && p in g.members[f].1 ensures p in g.next {
        assert f.MembersValid(this);
      }
      forall p | p in g.next && g.next[p].0 != null ensures g.next[p].0 in g.members {
        assert p.LinksValid(this);
      }
      forall p | p in g.next && g.next[p].1 != null ensures g.next[p].1 in g.members {
        assert p.LinksValid(this);
      }
    }

    /** `tree.families[h] || new Family(h, data, false)`: the registered family, else a new reference. */
    method FamilyFor(h: Handle) returns (f: Family)
      requires Valid()
      modifies tree`families, this`familyObjects
      ensures Valid() && Grows(old(tree.families), old(familyObjects))
      ensures h in tree.families && tree.families[h] == f && f in familyObjects
      ensures tree.families.Keys == old(tree.families.Keys) + {h}
      ensures h in old(tree.families) ==> f == old(tree.families[h]) && familyObjects == old(familyObjects)
      ensures h !in old(tree.families) ==> fresh(f) && !f.complete && familyObjects == old(familyObjects) + {f}
    {
      if h in tree.families {
        f := tree.families[h];
      } else {
        f := new Family(h, this);
      }
    }

    /** The handles of the families the walk is done with: registered, known and complete. */
    ghost function Done(): set<Handle>
      reads this`universe, this`familyObjects, tree`families, familyObjects`complete
    {
      set h | h in tree.families && h in universe && tree.families[h] in familyObjects && tree.families[h].complete
    }

    /** The handles the walk may still have to process. */
    ghost function Pending(): set<Handle>
      reads this`universe, this`familyObjects, tree`families, familyObjects`complete
    {
      universe - Done()
    }

    /** `familiesToDo.delete(familyId)` for the first key. */
    method Dequeue()
      requires QueueValid() && |familiesToDo| > 0
      modifies this`familiesToDo
      ensures QueueValid() && familiesToDo == old(familiesToDo[1..])
    {
      OrderedMap.RemoveFirst(familiesToDo);
      familiesToDo := OrderedMap.Remove(familiesToDo, familiesToDo[0].0);
    }

    /**
     * `parseData`: queue the root family at level 1 with no source person, then walk the queue
     * until it is empty. The walk ends because every turn either drops a queued family or
     * completes one more of the finitely many families the document names.
     */
    method ParseData(rootFamilyId: string) returns (out: Outcome)
      requires Valid() && QueueValid() && familiesToDo == [] && tree.families == map[] && tree.people == map[]
      requires persons == {} && familyObjects == {}
      modifies this`familiesToDo, this`universe, this`persons, this`familyObjects, tree
      ensures Valid() && QueueValid()
      ensures RootHandle(doc, rootFamilyId).Err? ==> out == Fail(UndefinedValue)
      ensures out.Pass? ==> RootHandle(doc, rootFamilyId).Ok? && universe == FamilyUniverse(doc, RootHandle(doc, rootFamilyId).value)
      ensures out.Pass? ==> familiesToDo == [] && RootHandle(doc, rootFamilyId).value in Done()
    {
      var r := RootHandle(doc, rootFamilyId);
      if r.Err? {
        return Fail(r.error);
      }
      universe := FamilyUniverse(doc, r.value);
      familiesToDo := [(r.value, FamilyData(1, null))];
      assert OrderedMap.Keys(familiesToDo) == [r.value];
      out := Drain(r.value);
    }

    /**
     * The `while (familiesToDo.size)` loop. A passing run empties the queue and is done with the
     * family that was first in it.
     */
    method Drain(ghost first: Handle) returns (out: Outcome)
      requires Valid() && Closed() && QueueValid() && |familiesToDo| > 0 && familiesToDo[0].0 == first
      modifies this`familiesToDo, this`persons, this`familyObjects, tree, persons, familyObjects
      ensures Valid() && QueueValid()
      ensures out.Pass? ==> familiesToDo == [] && first in Done()
    {
      out := Pass;
      ghost var persons0, families0 := persons, familyObjects;
      while |familiesToDo| > 0
        invariant Valid() && QueueValid()
        invariant fresh(persons - persons0) && fresh(familyObjects - families0)
        invariant first in Done() || (|familiesToDo| > 0 && familiesToDo[0].0 == first)
        decreases Pending(), |familiesToDo|
      {
        out := Step();
        if out.Fail? {
          return;
        }
      }
    }

    /** One turn of the `while` loop: the first queued family is dropped when complete, else walked. */
    method Step() returns (out: Outcome)
      requires Valid() && Closed() && QueueValid() && |familiesToDo| > 0
      modifies this`familiesToDo, this`persons, this`familyObjects, tree, persons, familyObjects
      ensures Valid() && QueueValid()
      ensures fresh(persons - old(persons)) && fresh(familyObjects - old(familyObjects))
      ensures old(Done()) <= Done()
      ensures old(familiesToDo[0].0) in old(Done()) ==> out == Pass && familiesToDo == old(familiesToDo[1..])
      ensures out.Pass? ==> old(familiesToDo[0].0) in Done()
      ensures out.Pass? ==>
        Pending() < old(Pending()) || (Pending() == old(Pending()) && |familiesToDo| < old(|familiesToDo|))
    {
      var h := familiesToDo[0].0;
      if h in tree.families && tree.families[h].complete {
        Dequeue();
        return Pass;
      }
      out := Visit(h);
    }

    /** A queued family the walk is not done with: set it up, then walk it. */
    method Visit(h: Handle) returns (out: Outcome)
      requires Valid() && Closed() && QueueValid() && |familiesToDo| > 0 && familiesToDo[0].0 == h
      requires !(h in tree.families && tree.families[h].complete)
      modifies this`familiesToDo, this`persons, this`familyObjects, tree, persons, familyObjects
      ensures Valid() && QueueValid()
      ensures fresh(persons - old(persons)) && fresh(familyObjects - old(familyObjects))
      ensures old(Done()) <= Done()
      ensures out.Pass? ==> h in Done() && Pending() < old(Pending())
    {
      ghost var pending := Pending();
      assert h in pending;
      var family;
      family, out := SetUpFamily(h);
      if out.Fail? {
        return;
      }
      ghost var done := Done();
      out := Walk(family, h);
      assert done <= Done();
    }

    /**
     * Lines 46-50: a registered family that is not complete is set up; an unregistered handle
     * gets `new Family(familyId, this, true)`, which registers it and sets it up.
     */
    method SetUpFamily(h: Handle) returns (family: Family, out: Outcome)
      requires Valid() && Closed() && h in universe && !(h in tree.families && tree.families[h].complete)
      modifies tree`people, tree`families, tree`dateRange, this`persons, this`familyObjects
      modifies familyObjects`parents, familyObjects`children, familyObjects`marriage, familyObjects`name,
        familyObjects`complete
      modifies persons`birth, persons`death
      ensures Valid() && Grows(old(tree.families), old(familyObjects))
      ensures fresh(persons - old(persons)) && fresh(familyObjects - old(familyObjects))
      ensures h in tree.families && tree.families[h] == family && family in familyObjects
      ensures h in old(tree.families) ==> family == old(tree.families[h])
      ensures old(Done()) + {h} <= Done()
    {
      ghost var done, objects0 := Done(), familyObjects;
      family := FamilyFor(h);
      assert done <= Done();
      ghost var objects1 := familyObjects;
      assert fresh(objects1 - objects0);
      out := SetUp(family, h);
      assert familyObjects - objects0 <= (familyObjects - objects1) + (objects1 - objects0);
    }

    /** `family.setup(this)` for the family registered under `h`, which the walk is then done with. */
    method SetUp(family: Family, h: Handle) returns (out: Outcome)
      requires Valid() && Closed() && h in universe && h in tree.families && tree.families[h] == family
      requires family in familyObjects
      modifies tree`people, tree`families, tree`dateRange, this`persons, this`familyObjects
      modifies familyObjects`parents, familyObjects`children, familyObjects`marriage, familyObjects`name,
        familyObjects`complete
      modifies persons`birth, persons`death
      ensures Valid() && Grows(old(tree.families), old(familyObjects))
      ensures fresh(persons - old(persons)) && fresh(familyObjects - old(familyObjects))
      ensures h in tree.families && tree.families[h] == family && family in familyObjects
      ensures old(Done()) + {h} <= Done()
    {
      ghost var families0 := tree.families;
      out := family.Setup(this);
      forall k | k in old(Done()) ensures k in Done() {
        assert families0[k] == family || families0[k].complete == old(families0[k].complete);
      }
    }

    /**
     * Lines 53-147 once the family is set up: read the queue entry, centre the family's sector
     * on the source person, record the level, dequeue, then place the parents and the children.
     */
    method Walk(family: Family, h: Handle) returns (out: Outcome)
      requires Valid() && Closed() && QueueValid() && |familiesToDo| > 0 && familiesToDo[0].0 == h
      requires h in tree.families && tree.families[h] == family && family in familyObjects && family.complete
      modifies this`familiesToDo, tree`people, tree`families, tree`links, tree`levels, tree`maxLevel,
        tree`dateRange
      modifies this`familyObjects, family`level
      modifies persons
      ensures Valid() && QueueValid() && Grows(old(tree.families), old(familyObjects)) && fresh(familyObjects - old(familyObjects))
      ensures out.Fail? ==> out == Fail(SourceNotFound)
      ensures out.Pass? ==>
        family.level == Some(old(familiesToDo[0].1.level)) && tree.maxLevel == MaxLevel(old(tree.maxLevel), old(familiesToDo[0].1.level))
    {
      OrderedMap.GetAt(familiesToDo, 0);
      var fd := OrderedMap.Get(familiesToDo, h);
      if fd.None? {
        // "Missing family": never taken, the key was just read from the map
        assert false;
      }
      var level, source := fd.value.level, fd.value.source;
      var width := SectorWidth(level);
      var centre := Centre(width, SlotOf(source, family.parents, family.children));
      if centre.Err? {
        return Fail(centre.error);
      }
      Enter(family, level);
      PlaceMembers(family, source, centre.value, width, level);
      out := Pass;
    }

    /** `family.level = level`, `maxLevel = Math.max(maxLevel, level)`, `familiesToDo.delete(familyId)`. */
    method Enter(family: Family, level: int)
      requires QueueValid() && |familiesToDo| > 0
      modifies family`level, tree`maxLevel, this`familiesToDo
      ensures QueueValid() && familiesToDo == old(familiesToDo[1..])
      ensures family.level == Some(level) && tree.maxLevel == MaxLevel(old(tree.maxLevel), level)
    {
      family.level := Some(level);
      tree.maxLevel := MaxLevel(tree.maxLevel, level);
      Dequeue();
    }

    /** The parents' loop, then the children's loop. */
    method PlaceMembers(family: Family, source: Person?, centre: real, width: real, level: int)
      requires Valid() && Closed() && QueueValid() && family in familyObjects && family.level.Some?
      modifies this`familiesToDo, tree`families, tree`links, tree`levels, tree`dateRange, this`familyObjects
      modifies persons
      ensures Valid() && QueueValid() && Grows(old(tree.families), old(familyObjects)) && fresh(familyObjects - old(familyObjects))
    {
      ProcessParents(family, OthersThan(family.parents, source), centre, width);
      ProcessChildren(family, OthersThan(family.children, source), |family.children|, centre, width, level);
    }

    /**
     * The parents' `forEach((parent, i) => …)` over those other than the source person: each
     * gets its angle and its order, then `addParentSorting`.
     */
    method ProcessParents(family: Family, others: seq<Person>, centre: real, width: real)
      requires Valid() && Closed() && QueueValid() && family.level.Some?
      requires forall i :: 0 <= i < |others| ==> others[i] in persons
      modifies this`familiesToDo, tree`families, tree`links, tree`levels, tree`dateRange, this`familyObjects
      modifies others
      ensures Valid() && QueueValid() && Grows(old(tree.families), old(familyObjects)) && fresh(familyObjects - old(familyObjects))
      ensures forall p :: p in others ==> (p.complete && p.level.Some? &&
        p.angle == ParentAngle(centre, width, LastIndex(others, p)) && p.parentOrder == Some(LastIndex(others, p)))
      ensures tree.links == old(tree.links) + ParentLinks(others, family)
    {
      ghost var families0, objects0, links0 := tree.families, familyObjects, tree.links;
      for i := 0 to |others|
        invariant Valid() && QueueValid() && Grows(families0, objects0) && fresh(familyObjects - objects0)
        invariant forall p :: p in others[..i] ==> (p.complete && p.level.Some? &&
          p.angle == ParentAngle(centre, width, LastIndex(others[..i], p)) && p.parentOrder == Some(LastIndex(others[..i], p)))
        invariant tree.links == links0 + ParentLinks(others[..i], family)
      {
        ParentTurn(family, others, centre, width, i, others[i], links0);
      }
      assert others[..|others|] == others;
    }

    /** The turn of `others[i]` in the parents' loop, which keeps the loop's invariant. */
    method ParentTurn(family: Family, others: seq<Person>, centre: real, width: real, i: nat, parent: Person,
                      ghost links0: seq<Link>)
      requires Valid() && Closed() && QueueValid() && family.level.Some?
      requires i < |others| && others[i] == parent && parent in persons
      requires forall p :: p in others[..i] ==> (p.complete && p.level.Some? &&
        p.angle == ParentAngle(centre, width, LastIndex(others[..i], p)) && p.parentOrder == Some(LastIndex(others[..i], p)))
      requires tree.links == links0 + ParentLinks(others[..i], family)
      modifies this`familiesToDo, tree`families, tree`links, tree`levels, tree`dateRange, this`familyObjects
      modifies parent
      ensures Valid() && QueueValid() && Grows(old(tree.families), old(familyObjects)) && fresh(familyObjects - old(familyObjects))
      ensures forall p :: p in others[..i + 1] ==> (p.complete && p.level.Some? &&
        p.angle == ParentAngle(centre, width, LastIndex(others[..i + 1], p)) &&
        p.parentOrder == Some(LastIndex(others[..i + 1], p)))
      ensures tree.links == links0 + ParentLinks(others[..i + 1], family)
    {
      PlaceParent(family, parent, centre, width, i);
      forall p | p in others[..i + 1]
        ensures LastIndex(others[..i + 1], p) == if p == parent then i else LastIndex(others[..i], p)
      {
        LastIndexStep(others, i, p);
      }
      assert others[..i + 1] == others[..i] + [parent];
    }

    /** One parent: `parent.angle = …`, `parent.parentOrder = i`, `addParentSorting(family, parent)`. */
    method PlaceParent(family: Family, parent: Person, centre: real, width: real, i: int)
      requires Valid() && Closed() && QueueValid() && parent in persons && family.level.Some?
      modifies tree`levels, tree`links, tree`families, tree`dateRange, this`familyObjects, this`familiesToDo
      modifies parent
      ensures Valid() && QueueValid() && Grows(old(tree.families), old(familyObjects)) && fresh(familyObjects - old(familyObjects))
      ensures parent.complete && parent.level.Some?
      ensures parent.angle == ParentAngle(centre, width, i) && parent.parentOrder == Some(i)
      ensures tree.links == old(tree.links) + [ParentLink(parent, family)]
    {
      parent.angle := ParentAngle(centre, width, i);
      parent.parentOrder := Some(i);
      var o := AddParentSorting(family, parent);
    }

    /**
     * `addParentSorting(family, parent)`: set the parent up if needed, give it the family's level
     * if it has none (or the falsy 0), queue the family it is a child of one level further out
     * unless that family is complete, and link it to the family.
     */
    method AddParentSorting(family: Family, parent: Person) returns (out: Outcome)
      requires Valid() && Closed() && QueueValid() && parent in persons
      modifies tree`levels, tree`links, tree`families, tree`dateRange, this`familyObjects, this`familiesToDo
      modifies parent
      ensures Valid() && QueueValid() && Grows(old(tree.families), old(familyObjects)) && fresh(familyObjects - old(familyObjects))
      ensures parent.complete && parent.angle == old(parent.angle) && parent.parentOrder == old(parent.parentOrder)
      ensures var joins := (old(parent.level).None? || old(parent.level) == Some(0)) && family.level.Some?;
        parent.level == (if joins then family.level else old(parent.level)) &&
        tree.levels == if joins then old(tree.levels)[family.level.value :=
          AddedToLevel(LevelList(old(tree.levels), family.level.value), parent, old(parent.level), family.level.value)]
          else old(tree.levels)
      ensures family.level.Some? ==> out.Pass?
      ensures out.Fail? ==> out == Fail(NoParentLevel) && parent.level.None?
      ensures out.Pass? && UpQueued(parent) ==>
        familiesToDo == OrderedMap.Set(old(familiesToDo), parent.childOf.handle, FamilyData(parent.level.value + 1, parent))
      ensures !(out.Pass? && UpQueued(parent)) ==> familiesToDo == old(familiesToDo)
      ensures tree.links == old(tree.links) + (if out.Pass? then [ParentLink(parent, family)] else [])
    {
      JoinLevel(family, parent);
      assert parent.LinksValid(this);
      out := QueueParentFamily(family, parent);
    }

    /** The first half of `addParentSorting`: setup, then the level. */
    method JoinLevel(family: Family, parent: Person)
      requires Valid() && Closed() && parent in persons
      modifies tree`levels, tree`families, tree`dateRange, this`familyObjects
      modifies parent
      ensures Valid() && Grows(old(tree.families), old(familyObjects)) && fresh(familyObjects - old(familyObjects))
      ensures parent.complete && parent.angle == old(parent.angle) && parent.parentOrder == old(parent.parentOrder)
      ensures var joins := (old(parent.level).None? || old(parent.level) == Some(0)) && family.level.Some?;
        parent.level == (if joins then family.level else old(parent.level)) &&
        tree.levels == if joins then old(tree.levels)[family.level.value :=
          AddedToLevel(LevelList(old(tree.levels), family.level.value), parent, old(parent.level), family.level.value)]
          else old(tree.levels)
    {
      parent.SetUpOnce(this);
      if (parent.level.None? || parent.level == Some(0)) && family.level.Some? {
        tree.AddToLevel(parent, family.level.value);
      }
    }

    /**
     * `parent.childOf && !tree.families[parent.childOf.handle]?.complete`, for a parent with a
     * level: its family of origin is to be queued.
     */
    ghost predicate UpQueued(parent: Person)
      reads parent`childOf, parent`level, tree`families, this`familyObjects, familyObjects`complete
    {
      parent.childOf != null && parent.level.Some? && !IsComplete(parent.childOf.handle)
    }

    /** `tree.families[h]?.complete`, for a registered family that is a known object. */
    ghost predicate IsComplete(h: Handle)
      reads tree`families, this`familyObjects, familyObjects`complete
    {
      h in tree.families && tree.families[h] in familyObjects && tree.families[h].complete
    }

    /** The second half of `addParentSorting`: queue the parent's own family of origin, then link. */
    method QueueParentFamily(family: Family, parent: Person) returns (out: Outcome)
      requires RegistryValid() && QueueValid() && parent.LinksValid(this)
      modifies tree`links, this`familiesToDo
      ensures QueueValid()
      ensures out.Fail? ==> out == Fail(NoParentLevel) && parent.level.None?
      ensures parent.level.Some? ==> out.Pass?
      ensures out.Pass? && UpQueued(parent) ==>
        familiesToDo == OrderedMap.Set(old(familiesToDo), parent.childOf.handle, FamilyData(parent.level.value + 1, parent))
      ensures !(out.Pass? && UpQueued(parent)) ==> familiesToDo == old(familiesToDo)
      ensures tree.links == old(tree.links) + (if out.Pass? then [ParentLink(parent, family)] else [])
    {
      out := QueueUp(parent);
      if out.Pass? {
        tree.links := tree.links + [ParentLink(parent, family)];
      }
    }

    /** Queue the parent's family of origin, one level further out, unless it is complete. */
    method QueueUp(parent: Person) returns (out: Outcome)
      requires RegistryValid() && QueueValid() && parent.LinksValid(this)
      modifies this`familiesToDo
      ensures QueueValid()
      ensures out.Fail? ==> out == Fail(NoParentLevel) && parent.level.None?
      ensures parent.level.Some? ==> out.Pass?
      ensures out.Pass? && UpQueued(parent) ==>
        familiesToDo == OrderedMap.Set(old(familiesToDo), parent.childOf.handle, FamilyData(parent.level.value + 1, parent))
      ensures !(out.Pass? && UpQueued(parent)) ==> familiesToDo == old(familiesToDo)
    {
      var up := parent.childOf;
      if up != null && !(up.handle in tree.families && tree.families[up.handle].complete) {
        if parent.level.None? {
          return Fail(NoParentLevel);
        }
        familiesToDo := OrderedMap.Set(familiesToDo, up.handle, FamilyData(parent.level.value + 1, parent));
      }
      out := Pass;
    }

    /**
     * The children's `forEach((child, i) => …)` over those other than the source person. It never
     * queues a family: see `PlaceChild`.
     */
    method ProcessChildren(family: Family, others: seq<Person>, count: nat, centre: real, width: real, level: int)
      requires Valid() && Closed() && forall i :: 0 <= i < |others| ==> others[i] in persons
      modifies tree`families, tree`links, tree`levels, tree`dateRange, this`familyObjects
      modifies others
      ensures Valid() && Grows(old(tree.families), old(familyObjects)) && fresh(familyObjects - old(familyObjects))
      ensures forall c :: c in others ==> (c.complete && c.level.Some? &&
        c.angle == ChildAngle(centre, width, count, LastIndex(others, c)))
      ensures tree.links == old(tree.links) + ChildLinks(family, others)
    {
      ghost var families0, objects0, links0 := tree.families, familyObjects, tree.links;
      for i := 0 to |others|
        invariant Valid() && Grows(families0, objects0) && fresh(familyObjects - objects0)
        invariant forall c :: c in others[..i] ==> (c.complete && c.level.Some? &&
          c.angle == ChildAngle(centre, width, count, LastIndex(others[..i], c)))
        invariant tree.links == links0 + ChildLinks(family, others[..i])
      {
        ChildTurn(family, others, count, centre, width, level, i, others[i], links0);
      }
      assert others[..|others|] == others;
    }

    /** The turn of `others[i]` in the children's loop, which keeps the loop's invariant. */
    method ChildTurn(family: Family, others: seq<Person>, count: nat, centre: real, width: real, level: int, i: nat,
                     child: Person, ghost links0: seq<Link>)
      requires Valid() && Closed() && i < |others| && others[i] == child && child in persons
      requires forall c :: c in others[..i] ==> (c.complete && c.level.Some? &&
        c.angle == ChildAngle(centre, width, count, LastIndex(others[..i], c)))
      requires tree.links == links0 + ChildLinks(family, others[..i])
      modifies tree`families, tree`links, tree`levels, tree`dateRange, this`familyObjects
      modifies child
      ensures Valid() && Grows(old(tree.families), old(familyObjects)) && fresh(familyObjects - old(familyObjects))
      ensures forall c :: c in others[..i + 1] ==> (c.complete && c.level.Some? &&
        c.angle == ChildAngle(centre, width, count, LastIndex(others[..i + 1], c)))
      ensures tree.links == links0 + ChildLinks(family, others[..i + 1])
    {
      PlaceChild(family, child, count, centre, width, level, i);
      forall c | c in others[..i + 1]
        ensures LastIndex(others[..i + 1], c) == if c == child then i else LastIndex(others[..i], c)
      {
        LastIndexStep(others, i, c);
      }
      assert others[..i + 1] == others[..i] + [child];
    }

    /**
     * One child: set it up if needed, give it the level below the family if it has none (or the
     * falsy 0), its angle in the sector, and the link from the family. The source would also
     * queue the child's own family when that family is not registered; it always is, since
     * setting a person up registers its families, so that branch is never taken.
     */
    method PlaceChild(family: Family, child: Person, count: nat, centre: real, width: real, level: int, i: int)
      requires Valid() && Closed() && child in persons
      modifies tree`levels, tree`links, tree`families, tree`dateRange, this`familyObjects
      modifies child
      ensures Valid() && Grows(old(tree.families), old(familyObjects)) && fresh(familyObjects - old(familyObjects))
      ensures child.complete && child.parentOrder == old(child.parentOrder)
      ensures child.level == if old(child.level).None? || old(child.level) == Some(0) then Some(level - 1) else old(child.level)
      ensures child.angle == ChildAngle(centre, width, count, i)
      ensures tree.links == old(tree.links) + [ChildLink(family, child)]
    {
      child.SetUpOnce(this);
      // the enqueue test reads neither the level nor the angle, so it is made first here
      assert child.LinksValid(this);
      if child.parentIn != null && child.parentIn.handle !in tree.families {
        assert false;
      }
      PositionChild(family, child, count, centre, width, level, i);
    }

    /** The child's level (when it has none, or the falsy 0), its angle, and the family's link to it. */
    method PositionChild(family: Family, child: Person, count: nat, centre: real, width: real, level: int, i: int)
      modifies tree`levels, tree`links, child`level, child`angle
      ensures child.level == if old(child.level).None? || old(child.level) == Some(0) then Some(level - 1) else old(child.level)
      ensures child.angle == ChildAngle(centre, width, count, i)
      ensures tree.links == old(tree.links) + [ChildLink(family, child)]
    {
      if child.level.None? || child.level == Some(0) {
        tree.AddToLevel(child, level - 1);
      }
      child.angle := ChildAngle(centre, width, count, i);
      tree.links := tree.links + [ChildLink(family, child)];
    }

    /** The person registry only grows, and no registered person is replaced. */
    ghost predicate PeopleGrow(people0: map<Handle, Person>)
      reads tree`people
    {
      forall h :: h in people0 ==> h in tree.people && tree.people[h] == people0[h]
    }

    /** The family registry only grows, and no registered family is replaced. */
    ghost predicate Grows(families0: map<Handle, Family>, objects0: set<Family>)
      reads this`familyObjects, tree`families
    {
      GrowsFrom(families0, objects0, tree.families, familyObjects)
    }
  }

  // =========================================================================================
  // Rotation sets (src/models/TreeNode.ts)

  /** The worklist of `setRotationChildren`: each family with the person it was reached from, or null. */
  type Worklist = OrderedMap.Map<Family, Person?>

  /** `new Map(families)`: the entries set one after the other, later values winning. */
  function MapOf(entries: seq<(Family, Person?)>): (m: Worklist)
    ensures OrderedMap.Valid(m)
    ensures Elements(OrderedMap.Keys(m)) == Elements(OrderedMap.Keys(entries))
  {
    if |entries| == 0 then []
    else
      var front := entries[..|entries| - 1];
      var init := MapOf(front);
      var last := entries[|entries| - 1];
      assert OrderedMap.Keys(entries) == OrderedMap.Keys(front) + [last.0];
      ElementsConcat(OrderedMap.Keys(front), [last.0]);
      ElementsConcat(OrderedMap.Keys(init), [last.0]);
      OrderedMap.Set(init, last.0, last.1)
  }

  /** The persons `new Set(nodes)` starts from; with `nodes` omitted, a person starts from itself. */
  function Seeds(nodes: Option<seq<Person>>, self: Person?): set<Person> {
    if nodes.Some? then Elements(nodes.value)
    else if self != null then {self}
    else {}
  }

  /**
   * What the walk reads from the objects: each family's parents and children, and each
   * person's `childOf` and `parentIn`.
   */
  datatype Links = Links(members: map<Family, (seq<Person>, seq<Person>)>, next: map<Person, (Family?, Family?)>)

  /** The links of the families `fs` and the persons `ps` as they stand. */
  ghost function Snapshot(fs: set<Family>, ps: set<Person>): (g: Links)
    reads fs`parents, fs`children, ps`childOf, ps`parentIn
    ensures g.members.Keys == fs && g.next.Keys == ps
    ensures forall f :: f in fs ==> g.members[f] == (f.parents, f.children)
    ensures forall p :: p in ps ==> g.next[p] == (p.childOf, p.parentIn)
  {
    Links(map f | f in fs :: (f.parents, f.children), map p | p in ps :: (p.childOf, p.parentIn))
  }

  /** Every member of a family of `g` has links, and every family a person leads on to is in `g`. */
  ghost predicate ClosedLinks(g: Links) {
    (forall f, p :: f in g.members && p in g.members[f].0 ==> p in g.next) &&
    (forall f, p :: f in g.members && p in g.members[f].1 ==> p in g.next) &&
    (forall p :: p in g.next && g.next[p].0 != null ==> g.next[p].0 in g.members) &&
    (forall p :: p in g.next && g.next[p].1 != null ==> g.next[p].1 in g.members)
  }

  /** The family a member leads on to: a parent's own `childOf`, a child's own `parentIn`. */
  function Next(g: Links, p: Person, up: bool): Family?
    requires p in g.next
  {
    if up then g.next[p].0 else g.next[p].1
  }

  /** The parents of an entry's family, except its source. */
  function Ups(g: Links, e: (Family, Person?)): seq<Person>
    requires e.0 in g.members
  {
    OthersThan(g.members[e.0].0, e.1)
  }

  /** The children of an entry's family, except its source. */
  function Downs(g: Links, e: (Family, Person?)): seq<Person>
    requires e.0 in g.members
  {
    OthersThan(g.members[e.0].1, e.1)
  }

  /** The members the loop adds for an entry: its parents, then its children, except the source. */
  function Reached(g: Links, e: (Family, Person?)): seq<Person>
    requires e.0 in g.members
  {
    Ups(g, e) + Downs(g, e)
  }

  /** An entry's non-source members have links when `g` is closed. */
  lemma MembersLinked(g: Links, e: (Family, Person?))
    requires ClosedLinks(g) && e.0 in g.members
    ensures forall p :: p in Ups(g, e) ==> p in g.next
    ensures forall p :: p in Downs(g, e) ==> p in g.next
  {
    var ups, downs := g.members[e.0].0, g.members[e.0].1;
    forall p | p in Ups(g, e) ensures p in g.next {
      var k :| 0 <= k < |Ups(g, e)| && Ups(g, e)[k] == p;
      if e.1 != null { assert p in ups; }
    }
    forall p | p in Downs(g, e) ensures p in g.next {
      var k :| 0 <= k < |Downs(g, e)| && Downs(g, e)[k] == p;
      if e.1 != null { assert p in downs; }
    }
  }

  /** The families a worklist names. */
  function Families(todo: Worklist): set<Family> {
    set k | 0 <= k < |todo| :: todo[k].0
  }

  /** Every person the entries of `todo` add. */
  ghost function ReachedBy(g: Links, todo: Worklist): set<Person>
    requires Families(todo) <= g.members.Keys
  {
    set k, p | 0 <= k < |todo| && todo[k].0 in g.members && p in Reached(g, todo[k]) :: p
  }

  lemma ReachedBySnoc(g: Links, todo: Worklist, i: nat)
    requires i < |todo| && Families(todo) <= g.members.Keys
    ensures Families(todo[..i]) <= g.members.Keys && Families(todo[..i + 1]) <= g.members.Keys
    ensures todo[i].0 in g.members
    ensures ReachedBy(g, todo[..i + 1]) == ReachedBy(g, todo[..i]) + Elements(Reached(g, todo[i]))
  {
    var a, b := todo[..i + 1], todo[..i];
    assert todo[i].0 in Families(todo);
    assert Families(a) <= Families(todo) by {
      forall f | f in Families(a) ensures f in Families(todo) {
        var k :| 0 <= k < |a| && a[k].0 == f;
        assert todo[k] == a[k];
      }
    }
    assert Families(b) <= Families(todo) by {
      forall f | f in Families(b) ensures f in Families(todo) {
        var k :| 0 <= k < |b| && b[k].0 == f;
        assert todo[k] == b[k];
      }
    }
    forall p | p in ReachedBy(g, a) ensures p in ReachedBy(g, b) || p in Reached(g, todo[i]) {
      var k :| 0 <= k < |a| && a[k].0 in g.members && p in Reached(g, a[k]);
      if k < i {
        assert a[k] == b[k];
      } else {
        assert a[k] == todo[i];
      }
    }
    forall p | p in ReachedBy(g, b) ensures p in ReachedBy(g, a) {
      var k :| 0 <= k < |b| && b[k].0 in g.members && p in Reached(g, b[k]);
      assert a[k] == b[k];
    }
    forall p | p in Reached(g, todo[i]) ensures p in ReachedBy(g, a) {
      assert a[i] == todo[i];
    }
  }

  /**
   * One person of the `forEach`: when its next family is not yet a key, that family is
   * appended with the person as its source; a family already a key keeps its entry.
   */
  function EnqueueOne(g: Links, todo: Worklist, p: Person, up: bool): (r: Worklist)
    requires OrderedMap.Valid(todo) && p in g.next
    ensures OrderedMap.Valid(r) && |todo| <= |r| <= |todo| + 1 && r[..|todo|] == todo
    ensures Next(g, p, up) != null ==> Next(g, p, up) in OrderedMap.Keys(r)
    ensures |r| == |todo| + 1 ==> Next(g, p, up) != null && r[|todo|] == (Next(g, p, up), p)
  {
    var f := Next(g, p, up);
    if f != null && f !in OrderedMap.Keys(todo) then
      var r := todo + [(f, p)];
      assert OrderedMap.Keys(r) == OrderedMap.Keys(todo) + [f];
      assert OrderedMap.Keys(r)[|todo|] == f;
      r
    else todo
  }

  /** `ps.forEach(...)`'s effect on the worklist: `EnqueueOne` for each person in order. */
  function Enqueued(g: Links, todo: Worklist, ps: seq<Person>, up: bool): (r: Worklist)
    requires OrderedMap.Valid(todo) && forall p :: p in ps ==> p in g.next
    ensures OrderedMap.Valid(r)
    ensures |todo| <= |r| && r[..|todo|] == todo
    ensures forall p :: p in ps && Next(g, p, up) != null ==> Next(g, p, up) in OrderedMap.Keys(r)
    ensures forall k :: |todo| <= k < |r| ==> r[k].1 != null && r[k].1 in ps && r[k].0 == Next(g, r[k].1, up)
  {
    if |ps| == 0 then todo
    else
      var init := ps[..|ps| - 1];
      assert forall q :: q in init ==> q in ps;
      var t := Enqueued(g, todo, init, up);
      EnqueueLast(g, todo, t, ps, up);
      EnqueueOne(g, t, ps[|ps| - 1], up)
  }

  /** The step of `Enqueued`: enqueueing the last person keeps what the others established. */
  lemma EnqueueLast(g: Links, todo: Worklist, t: Worklist, ps: seq<Person>, up: bool)
    requires OrderedMap.Valid(todo) && |ps| > 0 && forall p :: p in ps ==> p in g.next
    requires OrderedMap.Valid(t) && |todo| <= |t| && t[..|todo|] == todo
    requires forall p :: p in ps[..|ps| - 1] && Next(g, p, up) != null ==> Next(g, p, up) in OrderedMap.Keys(t)
    requires forall k :: |todo| <= k < |t| ==> t[k].1 != null && t[k].1 in ps[..|ps| - 1] && t[k].0 == Next(g, t[k].1, up)
    ensures var r := EnqueueOne(g, t, ps[|ps| - 1], up);
      |todo| <= |r| && r[..|todo|] == todo &&
      (forall p :: p in ps && Next(g, p, up) != null ==> Next(g, p, up) in OrderedMap.Keys(r)) &&
      (forall k :: |todo| <= k < |r| ==> r[k].1 != null && r[k].1 in ps && r[k].0 == Next(g, r[k].1, up))
  {
    var init, p := ps[..|ps| - 1], ps[|ps| - 1];
    var r := EnqueueOne(g, t, p, up);
    assert forall q :: q in ps ==> q in init || q == p;
    assert forall q :: q in init ==> q in ps;
    assert forall k :: 0 <= k < |t| ==> r[k] == t[k] by {
      assert forall k :: 0 <= k < |t| ==> r[..|t|][k] == r[k];
    }
    assert forall f :: f in OrderedMap.Keys(t) ==> f in OrderedMap.Keys(r) by {
      forall f | f in OrderedMap.Keys(t) ensures f in OrderedMap.Keys(r) {
        var k :| 0 <= k < |t| && OrderedMap.Keys(t)[k] == f;
        assert OrderedMap.Keys(r)[k] == f;
      }
    }
    assert r[..|todo|] == t[..|todo|];
  }

  lemma EnqueuedSnoc(g: Links, todo: Worklist, ps: seq<Person>, j: nat, up: bool)
    requires OrderedMap.Valid(todo) && j < |ps| && forall p :: p in ps ==> p in g.next
    ensures forall p :: p in ps[..j] ==> p in g.next
    ensures Enqueued(g, todo, ps[..j + 1], up) == EnqueueOne(g, Enqueued(g, todo, ps[..j], up), ps[j], up)
  {
    assert forall p :: p in ps[..j] ==> p in ps;
    assert forall p :: p in ps[..j + 1] ==> p in ps;
    assert ps[..j + 1][..j] == ps[..j];
  }

  /**
   * Entry `k` was appended by a member of an earlier entry: by a non-source parent whose
   * `childOf` it is, or by a non-source child whose `parentIn` it is.
   */
  ghost predicate Appended(g: Links, todo: Worklist, k: int)
    requires ClosedLinks(g) && Families(todo) <= g.members.Keys && 0 <= k < |todo|
  {
    var src := todo[k].1;
    src != null &&
    exists j :: 0 <= j < k && todo[j].0 in g.members &&
      ((src in Ups(g, todo[j]) && src in g.next && todo[k].0 == Next(g, src, true)) ||
       (src in Downs(g, todo[j]) && src in g.next && todo[k].0 == Next(g, src, false)))
  }

  /** Every non-source parent of one of the first `n` entries has its `childOf` as a key, every child its `parentIn`. */
  ghost predicate ClosedPrefix(g: Links, todo: Worklist, n: int)
    requires ClosedLinks(g) && Families(todo) <= g.members.Keys && n <= |todo|
  {
    (forall k, p ::
       0 <= k < n && todo[k].0 in g.members && p in Ups(g, todo[k]) && p in g.next && Next(g, p, true) != null
       ==> Next(g, p, true) in OrderedMap.Keys(todo)) &&
    (forall k, p ::
       0 <= k < n && todo[k].0 in g.members && p in Downs(g, todo[k]) && p in g.next && Next(g, p, false) != null
       ==> Next(g, p, false) in OrderedMap.Keys(todo))
  }

  /**
   * The worklist after `n` entries are processed, over closed links `g`: it starts with `m` and
   * names each family of `g` at most once; the first `n` entries have their members' next
   * families as keys; each entry after `m` was appended by a member of an earlier entry.
   */
  ghost predicate WalkShape(g: Links, m: Worklist, todo: Worklist, n: int) {
    ClosedLinks(g) && Families(todo) <= g.members.Keys &&
    OrderedMap.Valid(todo) && Extends(m, todo) && 0 <= n <= |todo| && ClosedPrefix(g, todo, n) &&
    forall k :: |m| <= k < |todo| ==> Appended(g, todo, k)
  }

  /**
   * What the walk of `setRotationChildren` leaves: the worklist starts with `new Map(families)`
   * and names each family once; every entry's non-source parents and children are in the
   * result, and their next families are keys; each later entry was appended by a member of an
   * earlier one; the result is the seeds and the members the entries reached, no more.
   */
  ghost predicate RotationWalk(g: Links, families: seq<(Family, Person?)>, nodes: Option<seq<Person>>, self: Person?,
    todo: Worklist, result: set<Person>)
  {
    WalkShape(g, MapOf(families), todo, |todo|) && result == Seeds(nodes, self) + ReachedBy(g, todo)
  }

  /** `b` is `a` with entries appended. */
  ghost predicate Extends(a: Worklist, b: Worklist) {
    |a| <= |b| && b[..|a|] == a
  }

  lemma ExtendsKeys(a: Worklist, b: Worklist)
    requires Extends(a, b)
    ensures forall k :: 0 <= k < |a| ==> b[k] == a[k]
    ensures forall f :: f in OrderedMap.Keys(a) ==> f in OrderedMap.Keys(b)
  {
    assert forall k :: 0 <= k < |a| ==> b[..|a|][k] == b[k];
  }

  lemma ClosedPrefixGrows(g: Links, a: Worklist, b: Worklist, n: int)
    requires ClosedLinks(g) && Families(a) <= g.members.Keys && Families(b) <= g.members.Keys
    requires Extends(a, b) && n <= |a| && ClosedPrefix(g, a, n)
    ensures ClosedPrefix(g, b, n)
  {
    ExtendsKeys(a, b);
  }

  lemma AppendedGrows(g: Links, a: Worklist, b: Worklist, k: int)
    requires ClosedLinks(g) && Families(a) <= g.members.Keys && Families(b) <= g.members.Keys
    requires Extends(a, b) && 0 <= k < |a| && Appended(g, a, k)
    ensures Appended(g, b, k)
  {
    ExtendsKeys(a, b);
    var src := a[k].1;
    var j :| 0 <= j < k && a[j].0 in g.members &&
      ((src in Ups(g, a[j]) && src in g.next && a[k].0 == Next(g, src, true)) ||
       (src in Downs(g, a[j]) && src in g.next && a[k].0 == Next(g, src, false)));
    assert b[j] == a[j];
  }

  /**
   * Visiting entry `i` of `t0` appends, in `t1`, the `childOf` of the non-source parents and
   * then, in `t2`, the `parentIn` of the non-source children: the new entries are families of
   * `g`, appended by members of entry `i`, and every member's next family is now a key.
   */
  lemma VisitKeeps(g: Links, t0: Worklist, t1: Worklist, t2: Worklist, i: nat)
    requires ClosedLinks(g) && i < |t0| && Families(t0) <= g.members.Keys && OrderedMap.Valid(t0)
    requires t0[i].0 in g.members && (forall p :: p in Ups(g, t0[i]) ==> p in g.next) && (forall p :: p in Downs(g, t0[i]) ==> p in g.next)
    requires t1 == Enqueued(g, t0, Ups(g, t0[i]), true)
    requires t2 == Enqueued(g, t1, Downs(g, t0[i]), false)
    ensures Extends(t0, t2) && Families(t2) <= g.members.Keys
    ensures forall p :: p in Ups(g, t0[i]) && Next(g, p, true) != null ==> Next(g, p, true) in OrderedMap.Keys(t2)
    ensures forall p :: p in Downs(g, t0[i]) && Next(g, p, false) != null ==> Next(g, p, false) in OrderedMap.Keys(t2)
    ensures forall k :: |t0| <= k < |t2| ==> Appended(g, t2, k)
  {
    var e := t0[i];
    var ups, downs := Ups(g, e), Downs(g, e);
    assert Extends(t1, t2);
    ExtendsKeys(t0, t1);
    ExtendsKeys(t1, t2);
    forall k | 0 <= k < |t2| ensures t2[k].0 in g.members {
      if k >= |t1| {
        assert t2[k].1 in downs;
      } else if k >= |t0| {
        assert t2[k] == t1[k] && t1[k].1 in ups;
      } else {
        assert t2[k] == t0[k] && t0[k].0 in Families(t0);
      }
    }
    forall k | |t0| <= k < |t2| ensures Appended(g, t2, k) {
      assert t2[i] == e;
      if k >= |t1| {
        assert t2[k].1 in downs && t2[k].0 == Next(g, t2[k].1, false);
      } else {
        assert t2[k] == t1[k] && t1[k].1 in ups && t2[k].0 == Next(g, t2[k].1, true);
      }
    }
  }

  lemma ExtendsTrans(a: Worklist, b: Worklist, c: Worklist)
    requires Extends(a, b) && Extends(b, c)
    ensures Extends(a, c)
  {
    assert c[..|a|] == c[..|b|][..|a|];
  }

  /** A walk over families of `g` is no longer than the families of `g`. */
  lemma WalkBound(g: Links, m: Worklist, todo: Worklist, n: int)
    requires WalkShape(g, m, todo, n)
    ensures |todo| <= |g.members.Keys|
  {
    forall k | 0 <= k < |todo| ensures OrderedMap.Keys(todo)[k] in g.members.Keys {
      assert todo[k].0 in Families(todo);
    }
    DistinctWithin(OrderedMap.Keys(todo), g.members.Keys);
  }

  /** Processing entry `i` keeps the walk's shape one entry further, and adds its members. */
  lemma WalkStep(g: Links, m: Worklist, t0: Worklist, t1: Worklist, t2: Worklist, i: nat)
    requires WalkShape(g, m, t0, i) && i < |t0| && t0[i].0 in g.members
    requires (forall p :: p in Ups(g, t0[i]) ==> p in g.next) && (forall p :: p in Downs(g, t0[i]) ==> p in g.next)
    requires t1 == Enqueued(g, t0, Ups(g, t0[i]), true)
    requires t2 == Enqueued(g, t1, Downs(g, t0[i]), false)
    ensures WalkShape(g, m, t2, i + 1)
    ensures Families(t0[..i]) <= g.members.Keys && Families(t2[..i + 1]) <= g.members.Keys
    ensures ReachedBy(g, t2[..i + 1]) == ReachedBy(g, t0[..i]) + Elements(Reached(g, t0[i]))
  {
    VisitKeeps(g, t0, t1, t2, i);
    ExtendsKeys(t0, t2);
    ExtendsTrans(m, t0, t2);
    ClosedPrefixGrows(g, t0, t2, i);
    forall k | |m| <= k < |t0| ensures Appended(g, t2, k) {
      AppendedGrows(g, t0, t2, k);
    }
    ReachedBySnoc(g, t2, i);
    assert t2[..i] == t0[..i] && t2[i] == t0[i];
  }

  /** The walk before any entry is processed: `new Map(families)`, nothing reached yet. */
  lemma WalkStart(g: Links, families: seq<(Family, Person?)>)
    requires ClosedLinks(g)
    requires forall i :: 0 <= i < |families| ==> families[i].0 in g.members
    ensures WalkShape(g, MapOf(families), MapOf(families), 0)
    ensures Families(MapOf(families)[..0]) <= g.members.Keys && ReachedBy(g, MapOf(families)[..0]) == {}
  {
    var m := MapOf(families);
    MapOfWithin(g.members.Keys, families);
    assert Extends(m, m) by { assert m[..|m|] == m; }
    assert ClosedPrefix(g, m, 0);
    NothingReached(g, m);
  }

  lemma MapOfWithin(fs: set<Family>, families: seq<(Family, Person?)>)
    requires forall i :: 0 <= i < |families| ==> families[i].0 in fs
    ensures Families(MapOf(families)) <= fs
  {
    var m := MapOf(families);
    forall k | 0 <= k < |m| ensures m[k].0 in fs {
      assert OrderedMap.Keys(m)[k] == m[k].0;
      assert m[k].0 in Elements(OrderedMap.Keys(families));
      var i :| 0 <= i < |families| && OrderedMap.Keys(families)[i] == m[k].0;
    }
  }

  lemma NothingReached(g: Links, m: Worklist)
    ensures Families(m[..0]) <= g.members.Keys && ReachedBy(g, m[..0]) == {}
  {
    var none := m[..0];
    assert |none| == 0;
  }

  /**
   * What a finished walk promises: the seeds are in the result; every family of `families` is
   * walked, each at most once; every non-source parent and child of a walked family is in the
   * result, and so are their next families; nothing else is.
   */
  lemma RotationWalkMeans(g: Links, families: seq<(Family, Person?)>, nodes: Option<seq<Person>>, self: Person?,
    todo: Worklist, result: set<Person>)
    requires RotationWalk(g, families, nodes, self, todo, result)
    ensures Seeds(nodes, self) <= result
    ensures OrderedMap.Valid(todo)
    ensures forall i :: 0 <= i < |families| ==> families[i].0 in OrderedMap.Keys(todo)
    ensures forall k, p :: 0 <= k < |todo| && p in Reached(g, todo[k]) ==> p in result
    ensures forall k, p :: 0 <= k < |todo| && p in Ups(g, todo[k]) && p in g.next && Next(g, p, true) != null ==>
      Next(g, p, true) in OrderedMap.Keys(todo)
    ensures forall k, p :: 0 <= k < |todo| && p in Downs(g, todo[k]) && p in g.next && Next(g, p, false) != null ==>
      Next(g, p, false) in OrderedMap.Keys(todo)
    ensures forall p :: p in result ==>
      p in Seeds(nodes, self) || exists k :: 0 <= k < |todo| && p in Reached(g, todo[k])
  {
    var m := MapOf(families);
    ExtendsKeys(m, todo);
    forall i | 0 <= i < |families| ensures families[i].0 in OrderedMap.Keys(todo) {
      assert families[i].0 in Elements(OrderedMap.Keys(families)) by {
        assert OrderedMap.Keys(families)[i] == families[i].0;
      }
    }
    forall k, p | 0 <= k < |todo| && p in Reached(g, todo[k]) ensures p in result {
      assert todo[k].0 in Families(todo);
    }
  }

  /**
   * `setRotationChildren(families, nodes)` up to its last line: the persons to rotate with the
   * node `self` (null for a family), over the families `fs` and persons `ps` it can reach. The
   * worklist is returned as a ghost to state the walk.
   */
  method RotationSet(ghost fs: set<Family>, ghost ps: set<Person>, ghost g: Links, families: seq<(Family, Person?)>,
    nodes: Option<seq<Person>>, self: Person?) returns (result: set<Person>, ghost walked: Worklist)
    requires Snapshot(fs, ps) == g && ClosedLinks(g)
    requires forall i :: 0 <= i < |families| ==> families[i].0 in fs
    ensures RotationWalk(g, families, nodes, self, walked, result)
  {
    result := if nodes.Some? then Elements(nodes.value) else {};
    if nodes.None? && self != null {
      result := result + {self};
    }
    var todo: Worklist := MapOf(families);
    WalkStart(g, families);
    assert result == Seeds(nodes, self);
    result, walked := WalkAll(fs, ps, g, todo, Seeds(nodes, self), result);
  }

  /** The `for … of` loop over the worklist, which grows while it is walked. */
  method WalkAll(ghost fs: set<Family>, ghost ps: set<Person>, ghost g: Links, todo0: Worklist,
    ghost seeds: set<Person>, result0: set<Person>) returns (result: set<Person>, todo: Worklist)
    requires Snapshot(fs, ps) == g && WalkShape(g, todo0, todo0, 0)
    requires Families(todo0[..0]) <= g.members.Keys && result0 == seeds + ReachedBy(g, todo0[..0])
    ensures WalkShape(g, todo0, todo, |todo|) && result == seeds + ReachedBy(g, todo)
  {
    result, todo := result0, todo0;
    var i := 0;
    while i < |todo|
      invariant Snapshot(fs, ps) == g
      invariant WalkShape(g, todo0, todo, i) && Families(todo[..i]) <= g.members.Keys
      invariant result == seeds + ReachedBy(g, todo[..i])
      decreases |g.members.Keys| - i
    {
      result, todo := RotationTurn(fs, ps, g, todo0, todo, i, seeds, result);
      i := i + 1;
    }
    assert todo[..i] == todo;
  }

  /** One turn of the `for … of` loop, with the walk's shape it keeps. */
  method RotationTurn(ghost fs: set<Family>, ghost ps: set<Person>, ghost g: Links, ghost m: Worklist,
    todo: Worklist, i: nat, ghost seeds: set<Person>, result: set<Person>) returns (result': set<Person>, todo': Worklist)
    requires Snapshot(fs, ps) == g && WalkShape(g, m, todo, i) && i < |todo|
    requires Families(todo[..i]) <= g.members.Keys && result == seeds + ReachedBy(g, todo[..i])
    ensures WalkShape(g, m, todo', i + 1) && i < |g.members.Keys|
    ensures Families(todo'[..i + 1]) <= g.members.Keys && result' == seeds + ReachedBy(g, todo'[..i + 1])
  {
    WalkBound(g, m, todo, i);
    assert todo[i].0 in Families(todo);
    MembersLinked(g, todo[i]);
    result', todo' := RotationStep(fs, ps, g, todo, i, result);
    StepKeepsWalk(g, m, todo, todo', i, seeds, result, result');
  }

  /** One turn's work: entry `i`'s parents, then its children, except the source. */
  method RotationStep(ghost fs: set<Family>, ghost ps: set<Person>, ghost g: Links, todo: Worklist, i: nat,
    result: set<Person>) returns (result': set<Person>, todo': Worklist)
    requires Snapshot(fs, ps) == g && OrderedMap.Valid(todo) && i < |todo| && todo[i].0 in fs
    requires (forall p :: p in Ups(g, todo[i]) ==> p in ps) && (forall p :: p in Downs(g, todo[i]) ==> p in ps)
    ensures todo' == Enqueued(g, Enqueued(g, todo, Ups(g, todo[i]), true), Downs(g, todo[i]), false)
    ensures result' == result + Elements(Ups(g, todo[i])) + Elements(Downs(g, todo[i]))
  {
    var e := todo[i];
    result', todo' := EnqueueParents(fs, ps, g, OthersThan(e.0.parents, e.1), todo, result);
    result', todo' := EnqueueChildren(fs, ps, g, OthersThan(e.0.children, e.1), todo', result');
  }

  /** `family.parents.filter(…).forEach(…)`: each parent joins the result, and its `childOf` the worklist. */
  method EnqueueParents(ghost fs: set<Family>, ghost ps: set<Person>, ghost g: Links, ups: seq<Person>,
    todo: Worklist, result: set<Person>) returns (result': set<Person>, todo': Worklist)
    requires Snapshot(fs, ps) == g && OrderedMap.Valid(todo) && forall p :: p in ups ==> p in ps
    ensures todo' == Enqueued(g, todo, ups, true) && result' == result + Elements(ups)
  {
    result', todo' := result, todo;
    var j := 0;
    while j < |ups|
      invariant 0 <= j <= |ups| && forall p :: p in ups[..j] ==> p in g.next
      invariant result' == result + Elements(ups[..j])
      invariant todo' == Enqueued(g, todo, ups[..j], true)
    {
      var p := ups[j];
      EnqueuedSnoc(g, todo, ups, j, true);
      ElementsSnoc(ups, j);
      result' := result' + {p};
      if p.childOf != null && p.childOf !in OrderedMap.Keys(todo') {
        var f: Family := p.childOf;
        todo' := todo' + [(f, p)];
      }
      j := j + 1;
    }
    assert ups[..j] == ups;
  }

  /** `family.children.filter(…).forEach(…)`: each child joins the result, and its `parentIn` the worklist. */
  method EnqueueChildren(ghost fs: set<Family>, ghost ps: set<Person>, ghost g: Links, downs: seq<Person>,
    todo: Worklist, result: set<Person>) returns (result': set<Person>, todo': Worklist)
    requires Snapshot(fs, ps) == g && OrderedMap.Valid(todo) && forall p :: p in downs ==> p in ps
    ensures todo' == Enqueued(g, todo, downs, false) && result' == result + Elements(downs)
  {
    result', todo' := result, todo;
    var j := 0;
    while j < |downs|
      invariant 0 <= j <= |downs| && forall p :: p in downs[..j] ==> p in g.next
      invariant result' == result + Elements(downs[..j])
      invariant todo' == Enqueued(g, todo, downs[..j], false)
    {
      var p := downs[j];
      EnqueuedSnoc(g, todo, downs, j, false);
      ElementsSnoc(downs, j);
      result' := result' + {p};
      if p.parentIn != null && p.parentIn !in OrderedMap.Keys(todo') {
        var f: Family := p.parentIn;
        todo' := todo' + [(f, p)];
      }
      j := j + 1;
    }
    assert downs[..j] == downs;
  }

  /** The bookkeeping of one turn: the walk's shape one entry further, and the result it adds. */
  lemma StepKeepsWalk(g: Links, m: Worklist, t0: Worklist, t2: Worklist,
    i: nat, seeds: set<Person>, r0: set<Person>, r2: set<Person>)
    requires WalkShape(g, m, t0, i) && i < |t0| && t0[i].0 in g.members
    requires (forall p :: p in Ups(g, t0[i]) ==> p in g.next) && (forall p :: p in Downs(g, t0[i]) ==> p in g.next)
    requires Families(t0[..i]) <= g.members.Keys && r0 == seeds + ReachedBy(g, t0[..i])
    requires t2 == Enqueued(g, Enqueued(g, t0, Ups(g, t0[i]), true), Downs(g, t0[i]), false)
    requires r2 == r0 + Elements(Ups(g, t0[i])) + Elements(Downs(g, t0[i]))
    ensures WalkShape(g, m, t2, i + 1)
    ensures Families(t2[..i + 1]) <= g.members.Keys && r2 == seeds + ReachedBy(g, t2[..i + 1])
  {
    var e := t0[i];
    var ups, downs := Ups(g, e), Downs(g, e);
    var t1 := Enqueued(g, t0, ups, true);
    var r1 := r0 + Elements(ups);
    WalkStep(g, m, t0, t1, t2, i);
    ElementsConcat(ups, downs);
    Regroup(seeds, ReachedBy(g, t0[..i]), Elements(ups), Elements(downs), Elements(Reached(g, e)),
      ReachedBy(g, t2[..i + 1]), r0, r1, r2);
  }

  lemma Regroup<T>(seeds: set<T>, before: set<T>, u: set<T>, d: set<T>, here: set<T>, after: set<T>,
    r0: set<T>, r1: set<T>, r2: set<T>)
    requires r0 == seeds + before && after == before + here && here == u + d
    requires r1 == r0 + u && r2 == r1 + d
    ensures r2 == seeds + after
  {
  }
}
