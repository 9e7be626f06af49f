/**
 * The original JavaScript graph builder (js/src/index.js). `parseData` walks the genealogy
 * document family by family from the root family, as the later versions do, but builds plain
 * JavaScript objects: `getPerson` and `getFamily` read a record's fields into a fresh object,
 * `data.people` and `data.families` hold those objects by handle, and `data.levels[level]` lists
 * the people placed on a ring.
 *
 * An object here is a record identified by its handle. A stored person is never changed again;
 * a stored family only has its member slots switched from the handle `getFamily` read to the
 * person object stored under that handle (`Id(h)` becomes `Obj(h)`), so the object the family
 * now points at is `people[h]`. A link points at nodes by handle in the same way.
 */
module LegacyJs {
  import opened Wrappers
  import opened JsArrays
  import opened Document
  import opened Levels
  import opened Sorting
  import OrderedMap

  /** The fields `getPerson` reads from a `<person>` element. */
  datatype PersonObject = PersonObject(
    handle: Handle,
    gender: string,               // the text of <gender>, unconverted
    parentIn: Option<Handle>,     // an own property only when there is a <parentin>
    childOf: Option<Handle>,
    firstName: string)

  /** A person in `data.people`: the object with the `level` and `sortList` the walk gave it. */
  datatype Placed = Placed(person: PersonObject, level: int, sortList: seq<SortItem>)

  /** A family's member slot: the handle `getFamily` read, or the stored person that replaced it. */
  datatype Member = Id(key: Handle) | Obj(key: Handle)

  /** The fields `getFamily` reads from a family element: `father` and `mother` only when present. */
  datatype FamilyObject = FamilyObject(
    handle: Handle, father: Option<Member>, mother: Option<Member>, children: seq<Member>)

  /** A family in `data.families`, with the `level` it was taken off the queue with. */
  datatype Entered = Entered(family: FamilyObject, level: int)

  /** A queued family's `[level, sortList]`. */
  datatype Queued = Queued(level: int, sorting: seq<SortItem>)

  datatype Node = PersonNode(person: Handle) | FamilyNode(family: Handle)
  datatype LinkKind = ParentKind | ChildKind

  /** An entry of `data.links`: `{source, target, type}`. */
  datatype Link = Link(source: Node, target: Node, kind: LinkKind)

  /** `addParent`'s `spouse` argument, `'father'` or `'mother'`. */
  datatype Role = Father | Mother

  /** The document has a person under `h` whose object `getPerson` can build. */
  predicate Readable(doc: Doc, h: Handle) {
    h in doc.people && doc.people[h].firstName.Some?
  }

  /**
   * `getPerson(handle)`: null when the document has no such person. Reading the text of a
   * missing `<first>` (or of any element under a missing `<name>`) reads `textContent` of the
   * null node of an empty selection, a TypeError.
   */
  function GetPerson(doc: Doc, h: Handle): (r: Result<Option<PersonObject>>)
    ensures r == Ok(None) <==> h !in doc.people
    ensures r.Err? <==> h in doc.people && doc.people[h].firstName.None?
    ensures r.Err? ==> r.error == UndefinedValue
    ensures r.Ok? && r.value.Some? <==> Readable(doc, h)
    ensures r.Ok? && r.value.Some? ==>
      r.value.value.handle == h && r.value.value.gender == doc.people[h].gender &&
      r.value.value.parentIn == doc.people[h].parentIn && r.value.value.childOf == doc.people[h].childOf &&
      r.value.value.firstName == doc.people[h].firstName.value
  {
    if h !in doc.people then Ok(None)
    else
      var rec := doc.people[h];
      if rec.firstName.None? then Err(UndefinedValue)
      else Ok(Some(PersonObject(h, rec.gender, rec.parentIn, rec.childOf, rec.firstName.value)))
  }

  /** The handles of a list of member slots, replaced or not. */
  function Keys(ms: seq<Member>): (ks: seq<Handle>)
    ensures |ks| == |ms| && forall i :: 0 <= i < |ms| ==> ks[i] == ms[i].key
  {
    seq(|ms|, i requires 0 <= i < |ms| => ms[i].key)
  }

  /**
   * `getFamily(handle)`: null when there is no such element; otherwise the handle, the `hlink`
   * of `<father>` and `<mother>` when present, and the `hlink` of every `<childref>` in order,
   * a missing attribute giving null (looked up as "null").
   */
  function GetFamily(doc: Doc, h: Handle): (r: Option<FamilyObject>)
    ensures r.None? <==> h !in doc.families
    ensures r.Some? ==> r.value.handle == h
    ensures r.Some? ==> Keys(r.value.children) == NullableHandles(doc.families[h].childRefs)
    ensures r.Some? ==> forall i :: 0 <= i < |r.value.children| ==> r.value.children[i].Id?
    ensures r.Some? ==> (r.value.father.Some? <==> doc.families[h].father.Some?)
    ensures r.Some? && r.value.father.Some? ==> r.value.father.value == Id(doc.families[h].father.value)
    ensures r.Some? ==> (r.value.mother.Some? <==> doc.families[h].mother.Some?)
    ensures r.Some? && r.value.mother.Some? ==> r.value.mother.value == Id(doc.families[h].mother.value)
  {
    if h !in doc.families then None
    else
      var rec := doc.families[h];
      var hs := NullableHandles(rec.childRefs);
      var children := seq(|hs|, i requires 0 <= i < |hs| => Id(hs[i]));
      assert Keys(children) == hs;
      Some(FamilyObject(h, if rec.father.Some? then Some(Id(rec.father.value)) else None,
        if rec.mother.Some? then Some(Id(rec.mother.value)) else None, children))
  }

  /** `family[spouse]`. */
  function Slot(f: FamilyObject, spouse: Role): Option<Member> {
    if spouse == Father then f.father else f.mother
  }

  /** `family[spouse] = m`. */
  function WithSlot(f: FamilyObject, spouse: Role, m: Member): (g: FamilyObject)
    ensures Slot(g, spouse) == Some(m)
    ensures g.handle == f.handle && g.children == f.children
    ensures spouse == Father ==> g.mother == f.mother
    ensures spouse == Mother ==> g.father == f.father
  {
    if spouse == Father then f.(father := Some(m)) else f.(mother := Some(m))
  }

  /** Every slot that holds an object holds one stored in `people`. */
  predicate MembersKnown(f: FamilyObject, people: map<Handle, Placed>) {
    (f.father.Some? && f.father.value.Obj? ==> f.father.value.key in people) &&
    (f.mother.Some? && f.mother.value.Obj? ==> f.mother.value.key in people) &&
    (forall i :: 0 <= i < |f.children| && f.children[i].Obj? ==> f.children[i].key in people)
  }

  /** Each stored family is stored under its own handle, is one the walk can meet, and points at stored people. */
  ghost predicate FamiliesKnown(families: map<Handle, Entered>, people: map<Handle, Placed>, universe: set<Handle>) {
    forall h :: h in families ==>
      h in universe && families[h].family.handle == h && MembersKnown(families[h].family, people)
  }

  /** Storing more people keeps every stored family's members known. */
  lemma FamiliesGrow(families: map<Handle, Entered>, people: map<Handle, Placed>, people': map<Handle, Placed>,
                     universe: set<Handle>)
    requires FamiliesKnown(families, people, universe) && people.Keys <= people'.Keys
    ensures FamiliesKnown(families, people', universe)
  {
  }

  /** Every slot of the family holds an object: its handles have all been replaced. */
  predicate Replaced(f: FamilyObject) {
    (f.father.Some? ==> f.father.value.Obj?) && (f.mother.Some? ==> f.mother.value.Obj?) &&
    (forall i :: 0 <= i < |f.children| ==> f.children[i].Obj?)
  }

  /** The child links pushed for the family `id`, one per child handle, in order. */
  function ChildLinks(id: Handle, hs: seq<Handle>): (ls: seq<Link>)
    ensures |ls| == |hs|
    ensures forall j :: 0 <= j < |hs| ==> ls[j] == Link(FamilyNode(id), PersonNode(hs[j]), ChildKind)
  {
    seq(|hs|, j requires 0 <= j < |hs| => Link(FamilyNode(id), PersonNode(hs[j]), ChildKind))
  }

  /** `familiesToDo.set(key, entry)` when the person names that family and it is not stored yet. */
  function Enqueued(q: OrderedMap.Map<Handle, Queued>, families: map<Handle, Entered>, key: Option<Handle>,
                    entry: Queued): OrderedMap.Map<Handle, Queued>
    requires OrderedMap.Valid(q)
  {
    if key.Some? && key.value !in families then OrderedMap.Set(q, key.value, entry) else q
  }

  class JsData {
    const doc: Doc
    const rootId: string
    var people: map<Handle, Placed>
    var families: map<Handle, Entered>
    var links: seq<Link>
    var levels: map<int, seq<Handle>>
    var maxLevel: int
    /** The d3 map of families still to parse, oldest first. */
    var familiesToDo: OrderedMap.Map<Handle, Queued>
    /** The family handles the walk can meet: the root and every family a person record names. */
    ghost var universe: set<Handle>

    /** The module's `data` object and `familiesToDo` map as the script declares them. */
    constructor (doc: Doc, rootId: string)
      ensures this.doc == doc && this.rootId == rootId
      ensures people == map[] && families == map[] && links == [] && levels == map[] && maxLevel == 0
      ensures familiesToDo == [] && universe == {}
      ensures Valid()
    {
      this.doc, this.rootId := doc, rootId;
      people, families, links, levels, maxLevel := map[], map[], [], map[], 0;
      familiesToDo, universe := [], {};
    }

    /** Every family a person record names is one the walk can meet. */
    ghost predicate Closed()
      reads this`universe
    {
      (forall r :: r in doc.people.Values && r.parentIn.Some? ==> r.parentIn.value in universe) &&
      (forall r :: r in doc.people.Values && r.childOf.Some? ==> r.childOf.value in universe)
    }

    /** Each stored person is the object `getPerson` builds for its handle. */
    ghost predicate PeopleValid()
      reads this`people
    {
      forall h :: h in people ==> GetPerson(doc, h) == Ok(Some(people[h].person))
    }

    /**
     * The level lists partition the stored people: each listed handle is stored with that level,
     * each stored person is listed under its level, and no list repeats a handle.
     */
    ghost predicate LevelsValid()
      reads this`people, this`levels
    {
      (forall l, i :: l in levels && 0 <= i < |levels[l]| ==> levels[l][i] in people && people[levels[l][i]].level == l) &&
      (forall h :: h in people ==> people[h].level in levels && h in levels[people[h].level]) &&
      (forall l :: l in levels ==> Distinct(levels[l]))
    }

    ghost predicate FamiliesValid()
      reads this`people, this`families, this`universe
    {
      FamiliesKnown(families, people, universe)
    }

    /** The queue is a map of families not yet stored, each with a sort list that has a head. */
    ghost predicate QueueValid()
      reads this`familiesToDo, this`families, this`universe
    {
      OrderedMap.Valid(familiesToDo) &&
      forall i :: 0 <= i < |familiesToDo| ==>
        familiesToDo[i].0 in universe && familiesToDo[i].0 !in families && |familiesToDo[i].1.sorting| > 0
    }

    ghost predicate Valid()
      reads this`people, this`families, this`levels, this`familiesToDo, this`universe
    {
      PeopleValid() && LevelsValid() && FamiliesValid() && QueueValid()
    }

    /** No family stored is above `maxLevel`. */
    ghost predicate LevelBound()
      reads this`families, this`maxLevel
    {
      forall h :: h in families ==> families[h].level <= maxLevel
    }

    /** `addToLevel(person, level)`: the list is created when missing, and the person appended. */
    method AddToLevel(h: Handle, level: int)
      modifies this`levels
      ensures levels == old(levels)[level := LevelList(old(levels), level) + [h]]
    {
      if level !in levels {
        levels := levels[level := []];
      }
      levels := levels[level := levels[level] + [h]];
    }

    /** `data.people[person.handle] = person; addToLevel(person, person.level)` for a new person. */
    method Store(p: PersonObject, level: int, sortList: seq<SortItem>)
      requires PeopleValid() && LevelsValid() && p.handle !in people && GetPerson(doc, p.handle) == Ok(Some(p))
      modifies this`people, this`levels
      ensures PeopleValid() && LevelsValid()
      ensures people == old(people)[p.handle := Placed(p, level, sortList)]
      ensures levels == old(levels)[level := LevelList(old(levels), level) + [p.handle]]
    {
      ghost var list := LevelList(levels, level);
      assert p.handle !in list;
      people := people[p.handle := Placed(p, level, sortList)];
      AddToLevel(p.handle, level);
      assert levels[level] == list + [p.handle];
    }

    /** `familiesToDo.set(key, entry)` for a family not yet stored. */
    method Schedule(key: Handle, entry: Queued)
      requires QueueValid() && key in universe && key !in families && |entry.sorting| > 0
      modifies this`familiesToDo
      ensures QueueValid() && familiesToDo == OrderedMap.Set(old(familiesToDo), key, entry)
    {
      familiesToDo := OrderedMap.Set(familiesToDo, key, entry);
    }

    /** A person record names only families the walk can meet. */
    lemma RecordInUniverse(h: Handle)
      requires Closed() && h in doc.people
      ensures doc.people[h].parentIn.Some? ==> doc.people[h].parentIn.value in universe
      ensures doc.people[h].childOf.Some? ==> doc.people[h].childOf.value in universe
    {
      assert doc.people[h] in doc.people.Values;
    }

    /**
     * `addParent(family, spouse, sortList)` for a slot holding the handle `h`: a person already in
     * `data.people` is reused as it is. A new one is read, given the family's level and the sort
     * list headed by `parent` (reached from a child) or `spouse`, ordered −1 for the father and
     * +1 for the mother, stored and added to its level; its `childOf` family is queued one level
     * up, behind `{child, 0}`, unless it is already stored. Either way the slot then holds the
     * person and a parent link is pushed.
     */
    method AddParent(id: Handle, spouse: Role, h: Handle, sortList: seq<SortItem>) returns (out: Outcome)
      requires Valid() && Closed() && id in families && Slot(families[id].family, spouse) == Some(Id(h))
      requires |sortList| > 0
      modifies this`people, this`levels, this`familiesToDo, this`families, this`links
      ensures Valid()
      ensures out.Fail? <==> h !in old(people) && !Readable(doc, h)
      ensures out.Fail? ==> out.error == UndefinedValue && families == old(families) && links == old(links)
      ensures h in old(people) || out.Fail? ==>
        people == old(people) && levels == old(levels) && familiesToDo == old(familiesToDo)
      ensures h !in old(people) && out.Pass? ==>
        people == old(people)[h := Placed(GetPerson(doc, h).value.value, old(families[id].level),
          ParentSortList(sortList, spouse == Father).value)]
      ensures out.Pass? ==>
        families == old(families)[id := old(families[id]).(family := WithSlot(old(families[id].family), spouse, Obj(h)))] &&
        links == old(links) + [Link(PersonNode(h), FamilyNode(id), ParentKind)]
    {
      if h !in people {
        out := NewParent(h, families[id].level, ParentSortList(sortList, spouse == Father).value);
        if out.Fail? {
          return;
        }
      }
      out := Pass;
      Attach(id, spouse, h);
    }

    /** The branch of `addParent` for a person not yet in `data.people`. */
    method NewParent(h: Handle, level: int, s: seq<SortItem>) returns (out: Outcome)
      requires Valid() && Closed() && h !in people
      modifies this`people, this`levels, this`familiesToDo
      ensures Valid()
      ensures out.Fail? <==> !Readable(doc, h)
      ensures out.Fail? ==>
        out.error == UndefinedValue && people == old(people) && levels == old(levels) && familiesToDo == old(familiesToDo)
      ensures out.Pass? ==>
        var p := GetPerson(doc, h).value.value;
        people == old(people)[h := Placed(p, level, s)] &&
        levels == old(levels)[level := LevelList(old(levels), level) + [h]] &&
        familiesToDo == Enqueued(old(familiesToDo), old(families), p.childOf, Queued(level + 1, UpwardSorting(s)))
    {
      ghost var people0 := people;
      var r := GetPerson(doc, h);
      if r.Err? || r.value.None? {
        return Fail(UndefinedValue);
      }
      var p := r.value.value;
      Store(p, level, s);
      if p.childOf.Some? && p.childOf.value !in families {
        RecordInUniverse(h);
        Schedule(p.childOf.value, Queued(level + 1, UpwardSorting(s)));
      }
      FamiliesGrow(families, people0, people, universe);
      out := Pass;
    }

    /** `family[spouse] = parent` and the parent link `{source: parent, target: family, type: 'parent'}`. */
    method Attach(id: Handle, spouse: Role, h: Handle)
      requires FamiliesValid() && QueueValid() && id in families && h in people
      modifies this`families, this`links
      ensures FamiliesValid() && QueueValid()
      ensures families == old(families)[id := old(families[id]).(family := WithSlot(old(families[id].family), spouse, Obj(h)))]
      ensures links == old(links) + [Link(PersonNode(h), FamilyNode(id), ParentKind)]
    {
      var e := families[id];
      families := families[id := e.(family := WithSlot(e.family, spouse, Obj(h)))];
      links := links + [Link(PersonNode(h), FamilyNode(id), ParentKind)];
    }

    /**
     * One turn of the children's `for` loop, for child `i` whose slot holds the handle `h`: a
     * person already in `data.people` is reused. A new one is read and given `level - 1` and the
     * family's sort list headed by `{sibling, i ± 1}` (reached from a child) or `{child, i}`; its
     * `parentIn` family is queued at the child's level, behind `{parent, 0}`, unless it is already
     * stored; it is then stored and added to its level. Either way the slot then holds the person
     * and a child link is pushed.
     */
    method AddChild(id: Handle, i: nat, h: Handle, sortList: seq<SortItem>, level: int) returns (out: Outcome)
      requires Valid() && Closed() && id in families && |sortList| > 0
      requires i < |families[id].family.children| && families[id].family.children[i] == Id(h)
      modifies this`people, this`levels, this`familiesToDo, this`families, this`links
      ensures Valid()
      ensures out.Fail? <==> h !in old(people) && !Readable(doc, h)
      ensures out.Fail? ==> out.error == UndefinedValue && families == old(families) && links == old(links)
      ensures h in old(people) || out.Fail? ==>
        people == old(people) && levels == old(levels) && familiesToDo == old(familiesToDo)
      ensures h !in old(people) && out.Pass? ==>
        people == old(people)[h := Placed(GetPerson(doc, h).value.value, level - 1, ChildSortList(sortList, i).value)]
      ensures out.Pass? ==>
        var e := old(families[id]);
        families == old(families)[id := e.(family := e.family.(children := e.family.children[i := Obj(h)]))] &&
        links == old(links) + [Link(FamilyNode(id), PersonNode(h), ChildKind)]
    {
      if h !in people {
        out := NewChild(h, level - 1, ChildSortList(sortList, i).value);
        if out.Fail? {
          return;
        }
      }
      out := Pass;
      Adopt(id, i, h);
    }

    /** The branch of the children's loop for a person not yet in `data.people`. */
    method NewChild(h: Handle, level: int, s: seq<SortItem>) returns (out: Outcome)
      requires Valid() && Closed() && h !in people
      modifies this`people, this`levels, this`familiesToDo
      ensures Valid()
      ensures out.Fail? <==> !Readable(doc, h)
      ensures out.Fail? ==>
        out.error == UndefinedValue && people == old(people) && levels == old(levels) && familiesToDo == old(familiesToDo)
      ensures out.Pass? ==>
        var p := GetPerson(doc, h).value.value;
        people == old(people)[h := Placed(p, level, s)] &&
        levels == old(levels)[level := LevelList(old(levels), level) + [h]] &&
        familiesToDo == Enqueued(old(familiesToDo), old(families), p.parentIn, Queued(level, DownwardSorting(s)))
    {
      ghost var people0 := people;
      var r := GetPerson(doc, h);
      if r.Err? || r.value.None? {
        return Fail(UndefinedValue);
      }
      var p := r.value.value;
      if p.parentIn.Some? && p.parentIn.value !in families {
        RecordInUniverse(h);
        Schedule(p.parentIn.value, Queued(level, DownwardSorting(s)));
      }
      Store(p, level, s);
      FamiliesGrow(families, people0, people, universe);
      out := Pass;
    }

    /** `family.children[i] = child` and the child link `{source: family, target: child, type: 'child'}`. */
    method Adopt(id: Handle, i: nat, h: Handle)
      requires FamiliesValid() && QueueValid() && id in families && i < |families[id].family.children| && h in people
      modifies this`families, this`links
      ensures FamiliesValid() && QueueValid()
      ensures var e := old(families[id]);
        families == old(families)[id := e.(family := e.family.(children := e.family.children[i := Obj(h)]))]
      ensures links == old(links) + [Link(FamilyNode(id), PersonNode(h), ChildKind)]
    {
      var e := families[id];
      families := families[id := e.(family := e.family.(children := e.family.children[i := Obj(h)]))];
      links := links + [Link(FamilyNode(id), PersonNode(h), ChildKind)];
    }

    /**
     * `parseData`: the root family's handle is read (`family#id`; a missing element fails as
     * reading an attribute of an empty selection), queued at level 1 behind `{parent, 0}`, and
     * the queue is worked until it is empty. Every family is taken off the queue and stored once.
     */
    method ParseData() returns (out: Outcome)
      requires Valid() && people == map[] && families == map[] && levels == map[] && familiesToDo == []
      modifies this`people, this`families, this`links, this`levels, this`maxLevel, this`familiesToDo, this`universe
      ensures out.Fail? ==> out.error == UndefinedValue
      ensures RootHandle(doc, rootId).Err? ==> out.Fail? && families == map[] && people == map[]
      ensures out.Pass? ==> Valid() && familiesToDo == [] && LevelBound()
      ensures out.Pass? ==>
        var root := RootHandle(doc, rootId).value;
        root in families && families[root].level == 1
      ensures out.Pass? ==> forall h :: h in families ==> Replaced(families[h].family)
    {
      var r := RootHandle(doc, rootId);
      if r.Err? {
        return Fail(UndefinedValue);
      }
      var root := r.value;
      universe := FamilyUniverse(doc, root);
      familiesToDo := OrderedMap.Set(familiesToDo, root, Queued(1, [SortItem(Parent, 0)]));
      assert familiesToDo == [(root, Queued(1, [SortItem(Parent, 0)]))];
      out := Pass;
      while |familiesToDo| > 0
        invariant out == Pass && Walking(root)
        decreases universe - families.Keys
      {
        out := Step(root);
        if out.Fail? {
          return;
        }
      }
    }

    /**
     * What holds between two turns of the walk from `root`: the state is valid, every stored
     * family is within `maxLevel` and fully resolved, and the root is stored at level 1 or is
     * still the only queued family.
     */
    ghost predicate Walking(root: Handle)
      reads this`people, this`families, this`levels, this`familiesToDo, this`universe, this`maxLevel
    {
      Valid() && Closed() && LevelBound() &&
      (forall h :: h in families ==> Replaced(families[h].family)) &&
      (root in families ==> families[root].level == 1) &&
      (root in families || familiesToDo == [(root, Queued(1, [SortItem(Parent, 0)]))])
    }

    /** A turn of the walk keeps `Walking` and stores one more family of the universe. */
    method Step(ghost root: Handle) returns (out: Outcome)
      requires Walking(root) && |familiesToDo| > 0
      modifies this`people, this`families, this`links, this`levels, this`maxLevel, this`familiesToDo
      ensures out.Fail? ==> out.error == UndefinedValue
      ensures out.Pass? ==> Walking(root) && universe - families.Keys < old(universe - families.Keys)
    {
      ghost var id, families0 := familiesToDo[0].0, families;
      out := Visit();
      if out.Pass? {
        assert families.Keys == families0.Keys + {id};
        assert forall h :: h in families0 ==> families[h] == families0[h];
      }
    }

    /**
     * One turn of `parseData`'s `while` loop: the oldest queued family is read, given its level,
     * counted into `maxLevel`, dequeued and stored; then its father, its mother and its children
     * are added. The family was not stored before: no family is processed twice. A family missing
     * from the document fails before anything changes.
     */
    method Visit() returns (out: Outcome)
      requires Valid() && Closed() && |familiesToDo| > 0
      modifies this`people, this`families, this`links, this`levels, this`maxLevel, this`familiesToDo
      ensures Valid()
      ensures old(familiesToDo[0].0) !in old(families)
      ensures out.Fail? ==> out.error == UndefinedValue
      ensures old(familiesToDo[0].0) !in doc.families ==> out.Fail? && families == old(families)
      ensures out.Pass? ==>
        var id, q := old(familiesToDo[0].0), old(familiesToDo[0].1);
        var f := GetFamily(doc, id).value;
        families == old(families)[id := Entered(Resolved(f), q.level)] &&
        maxLevel == MaxLevel(old(maxLevel), q.level) &&
        links == old(links) + ParentLinks(id, f) + ChildLinks(id, Keys(f.children))
    {
      // `familiesToDo.get(familyId)` of the oldest key is the oldest entry (`OrderedMap.GetAt`).
      var id, q := familiesToDo[0].0, familiesToDo[0].1;
      var f := GetFamily(doc, id);
      if f.None? {
        return Fail(UndefinedValue);
      }
      out := Process(id, f.value, q.level, q.sorting);
    }

    /** The body of a turn once the family object is read: store it, then add its parents and children. */
    method Process(id: Handle, family: FamilyObject, level: int, sortList: seq<SortItem>) returns (out: Outcome)
      requires Valid() && Closed() && |familiesToDo| > 0 && familiesToDo[0].0 == id && |sortList| > 0
      requires family.handle == id && Unresolved(family)
      modifies this`people, this`families, this`links, this`levels, this`maxLevel, this`familiesToDo
      ensures Valid()
      ensures maxLevel == MaxLevel(old(maxLevel), level)
      ensures out.Fail? ==> out.error == UndefinedValue
      ensures out.Pass? ==>
        families == old(families)[id := Entered(Resolved(family), level)] &&
        links == old(links) + ParentLinks(id, family) + ChildLinks(id, Keys(family.children))
    {
      Enter(id, family, level);
      out := Fill(id, sortList);
      if out.Pass? {
        UpdateTwice(old(families), id, Entered(family, level), Entered(Resolved(family), level));
      }
    }

    /** Adds the stored family's father, mother and children, in that order. */
    method Fill(id: Handle, sortList: seq<SortItem>) returns (out: Outcome)
      requires Valid() && Closed() && id in families && |sortList| > 0
      requires Unresolved(families[id].family)
      modifies this`people, this`families, this`links, this`levels, this`familiesToDo
      ensures Valid()
      ensures out.Fail? ==> out.error == UndefinedValue
      ensures out.Pass? ==>
        var e := old(families[id]);
        families == old(families)[id := e.(family := Resolved(e.family))] &&
        links == old(links) + ParentLinks(id, e.family) + ChildLinks(id, Keys(e.family.children))
    {
      ghost var e := families[id];
      ghost var parented := e.family.(father := ObjSlot(e.family.father), mother := ObjSlot(e.family.mother));
      out := AddParents(id, sortList);
      if out.Fail? {
        return;
      }
      UpdateTwice(old(families), id, e, e.(family := parented));
      out := AddChildren(id, sortList, families[id].level);
      if out.Pass? {
        UpdateTwice(old(families), id, e.(family := parented), e.(family := Resolved(e.family)));
      }
    }

    /**
     * `family.level = level`, `data.maxLevel = Math.max(data.maxLevel, level)`,
     * `familiesToDo.remove(familyId)` of the oldest key, and `data.families[familyId] = family`.
     */
    method Enter(id: Handle, f: FamilyObject, level: int)
      requires QueueValid() && FamiliesValid() && |familiesToDo| > 0 && familiesToDo[0].0 == id
      requires f.handle == id && Unresolved(f)
      modifies this`maxLevel, this`familiesToDo, this`families
      ensures QueueValid() && FamiliesValid()
      ensures maxLevel == MaxLevel(old(maxLevel), level)
      ensures familiesToDo == old(familiesToDo[1..])
      ensures families == old(families)[id := Entered(f, level)]
    {
      maxLevel := MaxLevel(maxLevel, level);
      EnterFamily(families, people, universe, id, f, level);
      Dequeue();
      families := families[id := Entered(f, level)];
    }

    /** `familiesToDo.remove(familyId)` of the oldest key: the entries behind it stay, in order. */
    method Dequeue()
      requires OrderedMap.Valid(familiesToDo) && |familiesToDo| > 0
      modifies this`familiesToDo
      ensures familiesToDo == old(familiesToDo[1..])
      ensures OrderedMap.Valid(familiesToDo)
      ensures forall i :: 0 <= i < |familiesToDo| ==> familiesToDo[i].0 != old(familiesToDo[0].0)
    {
      OrderedMap.RemoveFirst(familiesToDo);
      OrderedMap.TailValid(familiesToDo);
      familiesToDo := OrderedMap.Remove(familiesToDo, familiesToDo[0].0);
    }

    /** `addParent(family, 'father', …)` when the family has a father, then the same for the mother. */
    method AddParents(id: Handle, sortList: seq<SortItem>) returns (out: Outcome)
      requires Valid() && Closed() && id in families && |sortList| > 0
      requires Unresolved(families[id].family)
      modifies this`people, this`levels, this`familiesToDo, this`families, this`links
      ensures Valid()
      ensures out.Fail? ==> out.error == UndefinedValue
      ensures out.Pass? ==>
        var e := old(families[id]);
        families == old(families)[id := e.(family := e.family.(father := ObjSlot(e.family.father), mother := ObjSlot(e.family.mother)))] &&
        links == old(links) + ParentLinks(id, e.family)
    {
      ghost var e, families0, links0 := families[id], families, links;
      out := ParentTurn(id, Father, sortList);
      if out.Fail? {
        return;
      }
      ghost var e1, links1 := families[id], links;
      out := ParentTurn(id, Mother, sortList);
      if out.Fail? {
        return;
      }
      UpdateTwice(families0, id, e1, families[id]);
      ResolveBoth(e.family);
      assert RoleLink(id, e1.family, Mother) == RoleLink(id, e.family, Mother);
      Append3(links0, RoleLink(id, e.family, Father), RoleLink(id, e.family, Mother));
    }

    /** `if (family[spouse]) addParent(family, spouse, sortList)`. */
    method ParentTurn(id: Handle, spouse: Role, sortList: seq<SortItem>) returns (out: Outcome)
      requires Valid() && Closed() && id in families && |sortList| > 0
      requires Slot(families[id].family, spouse).Some? ==> Slot(families[id].family, spouse).value.Id?
      modifies this`people, this`levels, this`familiesToDo, this`families, this`links
      ensures Valid()
      ensures out.Fail? ==> out.error == UndefinedValue
      ensures out.Pass? ==>
        var e := old(families[id]);
        families == old(families)[id := e.(family := Resolve(e.family, spouse))] &&
        links == old(links) + RoleLink(id, e.family, spouse)
    {
      var m := Slot(families[id].family, spouse);
      if m.Some? {
        out := AddParent(id, spouse, m.value.key, sortList);
      } else {
        out := Pass;
        assert families == old(families)[id := families[id]];
      }
    }

    /** Turn `i` of the children's loop, with the first `i` slots already switched. */
    method ChildTurn(id: Handle, i: nat, ghost e0: Entered, sortList: seq<SortItem>, level: int) returns (out: Outcome)
      requires Valid() && Closed() && id in families && |sortList| > 0 && i < |e0.family.children|
      requires forall j :: 0 <= j < |e0.family.children| ==> e0.family.children[j].Id?
      requires families[id] == e0.(family := ReplacedUpTo(e0.family, i))
      modifies this`people, this`levels, this`familiesToDo, this`families, this`links
      ensures Valid()
      ensures out.Fail? ==> out.error == UndefinedValue && families == old(families)
      ensures out.Pass? ==>
        families == old(families)[id := e0.(family := ReplacedUpTo(e0.family, i + 1))] &&
        links == old(links) + [Link(FamilyNode(id), PersonNode(e0.family.children[i].key), ChildKind)]
    {
      var h := families[id].family.children[i].key;
      out := AddChild(id, i, h, sortList, level);
      if out.Pass? {
        ReplaceNext(e0.family, i);
      }
    }

    /**
     * The children's `for` loop of one turn: each child slot in order, each pushing one child
     * link; a child that cannot be read stops the walk.
     */
    method AddChildren(id: Handle, sortList: seq<SortItem>, level: int) returns (out: Outcome)
      requires Valid() && Closed() && id in families && |sortList| > 0
      requires forall i :: 0 <= i < |families[id].family.children| ==> families[id].family.children[i].Id?
      modifies this`people, this`levels, this`familiesToDo, this`families, this`links
      ensures Valid()
      ensures out.Fail? ==> out.error == UndefinedValue
      ensures out.Pass? ==>
        var e := old(families[id]);
        families == old(families)[id := e.(family := ReplacedUpTo(e.family, |e.family.children|))] &&
        links == old(links) + ChildLinks(id, Keys(e.family.children))
    {
      ghost var e0, links0 := families[id], links;
      ghost var hs := Keys(e0.family.children);
      var n := |families[id].family.children|;
      assert ReplacedUpTo(e0.family, 0).children == e0.family.children;
      out := Pass;
      for i := 0 to n
        invariant out == Pass && Valid()
        invariant families == old(families)[id := e0.(family := ReplacedUpTo(e0.family, i))]
        invariant links == links0 + ChildLinks(id, hs[..i])
      {
        out := ChildTurn(id, i, e0, sortList, level);
        if out.Fail? {
          return;
        }
        UpdateTwice(old(families), id, e0.(family := ReplacedUpTo(e0.family, i)), e0.(family := ReplacedUpTo(e0.family, i + 1)));
        ChildLinksSnoc(id, hs, i, links0);
      }
      assert hs[..n] == hs;
    }
  }

  /** A member slot switched to the stored object, when the family has that member. */
  function ObjSlot(m: Option<Member>): (r: Option<Member>)
    ensures r.Some? <==> m.Some?
    ensures r.Some? ==> r.value == Obj(m.value.key)
  {
    if m.Some? then Some(Obj(m.value.key)) else None
  }

  /** The family object once its turn is over: every member slot holds the stored object. */
  function Resolved(f: FamilyObject): (g: FamilyObject)
    ensures Replaced(g) && g.handle == f.handle && Keys(g.children) == Keys(f.children)
  {
    ReplacedUpTo(f.(father := ObjSlot(f.father), mother := ObjSlot(f.mother)), |f.children|)
  }

  /** No slot of the family holds an object yet: the family as `getFamily` returns it. */
  predicate Unresolved(f: FamilyObject) {
    (f.father.Some? ==> f.father.value.Id?) && (f.mother.Some? ==> f.mother.value.Id?) &&
    (forall i :: 0 <= i < |f.children| ==> f.children[i].Id?)
  }

  /** Storing a family as `getFamily` returns it keeps every stored family's members known. */
  lemma EnterFamily(families: map<Handle, Entered>, people: map<Handle, Placed>, universe: set<Handle>,
                    id: Handle, f: FamilyObject, level: int)
    requires FamiliesKnown(families, people, universe)
    requires id in universe && f.handle == id && Unresolved(f)
    ensures FamiliesKnown(families[id := Entered(f, level)], people, universe)
  {
  }

  /** The family with the `spouse` slot switched to the stored object, when it is filled. */
  function Resolve(f: FamilyObject, spouse: Role): (g: FamilyObject)
    ensures Slot(g, spouse) == ObjSlot(Slot(f, spouse))
    ensures g.handle == f.handle && g.children == f.children
    ensures spouse == Father ==> g.mother == f.mother
    ensures spouse == Mother ==> g.father == f.father
  {
    if spouse == Father then f.(father := ObjSlot(f.father)) else f.(mother := ObjSlot(f.mother))
  }

  /** The parent link pushed for the `spouse` slot, when it is filled. */
  function RoleLink(id: Handle, f: FamilyObject, spouse: Role): (ls: seq<Link>)
    ensures |ls| <= 1
    ensures ls != [] <==> Slot(f, spouse).Some?
  {
    if Slot(f, spouse).Some? then [Link(PersonNode(Slot(f, spouse).value.key), FamilyNode(id), ParentKind)] else []
  }

  /** Proof helper: resolving both parent slots in turn. */
  lemma ResolveBoth(f: FamilyObject)
    ensures Resolve(Resolve(f, Father), Mother) == f.(father := ObjSlot(f.father), mother := ObjSlot(f.mother))
  {
  }

  /** Proof helper: sequence concatenation regrouped. */
  lemma Append3<T>(a: seq<T>, b: seq<T>, c: seq<T>)
    ensures a + b + c == a + (b + c)
  {
  }

  /** The parent links a family's turn pushes: the father's, then the mother's. */
  function ParentLinks(id: Handle, f: FamilyObject): (ls: seq<Link>)
    ensures |ls| <= 2
  {
    RoleLink(id, f, Father) + RoleLink(id, f, Mother)
  }

  /** The family with its first `n` child slots switched to the stored objects. */
  function ReplacedUpTo(f: FamilyObject, n: nat): (g: FamilyObject)
    ensures g.handle == f.handle && g.father == f.father && g.mother == f.mother
    ensures |g.children| == |f.children| && Keys(g.children) == Keys(f.children)
    ensures forall j :: 0 <= j < |f.children| ==> g.children[j] == if j < n then Obj(f.children[j].key) else f.children[j]
  {
    var cs := seq(|f.children|, j requires 0 <= j < |f.children| => if j < n then Obj(f.children[j].key) else f.children[j]);
    assert Keys(cs) == Keys(f.children);
    f.(children := cs)
  }

  /** One more child pushes one more link after those already pushed. */
  lemma ChildLinksSnoc(id: Handle, hs: seq<Handle>, i: nat, links0: seq<Link>)
    requires i < |hs|
    ensures links0 + ChildLinks(id, hs[..i + 1]) ==
      links0 + ChildLinks(id, hs[..i]) + [Link(FamilyNode(id), PersonNode(hs[i]), ChildKind)]
  {
    assert ChildLinks(id, hs[..i + 1]) == ChildLinks(id, hs[..i]) + [Link(FamilyNode(id), PersonNode(hs[i]), ChildKind)];
  }

  /** Proof helper: a second update of the same key wins. */
  lemma UpdateTwice<K, V>(m: map<K, V>, k: K, a: V, b: V)
    ensures m[k := a][k := b] == m[k := b]
  {
  }

  /** Switching slot `i` after the first `i` is switching the first `i + 1`. */
  lemma ReplaceNext(f: FamilyObject, i: nat)
    requires i < |f.children|
    ensures ReplacedUpTo(f, i).(children := ReplacedUpTo(f, i).children[i := Obj(f.children[i].key)]) == ReplacedUpTo(f, i + 1)
  {
  }
}
