/**
 * The genealogy document (a Gramps XML export) as an abstract map from handle to record.
 * `select('person[handle=h]')`, `select('[handle=h]')` and `select('event[handle=h]')` become
 * map lookups; an element that is present but empty becomes a record with empty fields.
 */
module Document {
  import opened Wrappers
  import opened Dates

  type Handle = string

  /** A `<surname>` element: its text and its `derivation` attribute, when present. */
  datatype Surname = Surname(name: string, derivation: Option<string>)

  /** A `<person>` element. `parentIn` / `childOf` hold the `hlink` of the first such child element. */
  datatype PersonRecord = PersonRecord(
    gender: string,                 // text of <gender>
    parentIn: Option<Handle>,       // <parentin hlink=…>
    childOf: Option<Handle>,        // <childof hlink=…>
    eventRefs: seq<Handle>,         // the hlinks of the <eventref> elements, in document order
    firstName: Option<string>,      // text of <name><first>, absent when there is no such element
    surnames: seq<Surname>)         // the <name><surname> elements, in document order

  /** A `<family>` element. A `<childref>` may lack its `hlink` attribute (None). */
  datatype FamilyRecord = FamilyRecord(
    father: Option<Handle>,
    mother: Option<Handle>,
    eventRefs: seq<Handle>,
    childRefs: seq<Option<Handle>>)

  /** An `<event>` element: the text of `<type>` and the date `new Date(dateval.val)` gives. */
  datatype EventRecord = EventRecord(kind: string, date: Date)

  datatype Doc = Doc(
    people: map<Handle, PersonRecord>,
    families: map<Handle, FamilyRecord>,
    events: map<Handle, EventRecord>,
    familyIds: map<string, Handle>)   // `family#id`: the handle of the family with that id

  /**
   * The handle of the family whose `id` attribute is `id`. Reading an attribute of an empty
   * selection dereferences a null node, a TypeError.
   */
  function RootHandle(doc: Doc, id: string): (r: Result<Handle>)
    ensures r.Ok? <==> id in doc.familyIds
    ensures r.Ok? ==> r.value == doc.familyIds[id]
    ensures r.Err? ==> r.error == UndefinedValue
  {
    if id in doc.familyIds then Ok(doc.familyIds[id]) else Err(UndefinedValue)
  }

  /** A family handle any person record points at (as `parentin` or `childof`). */
  ghost predicate Referenced(doc: Doc, h: Handle) {
    exists r :: r in doc.people.Values && (r.parentIn == Some(h) || r.childOf == Some(h))
  }

  /** All family handles the traversal can ever meet: the root and every referenced handle. */
  ghost function FamilyUniverse(doc: Doc, root: Handle): (u: set<Handle>)
    ensures root in u
    ensures forall r :: r in doc.people.Values && r.parentIn.Some? ==> r.parentIn.value in u
    ensures forall r :: r in doc.people.Values && r.childOf.Some? ==> r.childOf.value in u
  {
    {root}
      + (set r | r in doc.people.Values && r.parentIn.Some? :: r.parentIn.value)
      + (set r | r in doc.people.Values && r.childOf.Some? :: r.childOf.value)
  }

  datatype Gender = Male | Female

  /** `select('gender').text() == 'M' ? Male : Female`. */
  function GenderOf(text: string): (g: Gender)
    ensures g == Male <==> text == "M"
  {
    if text == "M" then Male else Female
  }

  /** `ref` names an event of type `kind`. */
  predicate IsEvent(doc: Doc, ref: Handle, kind: string) {
    ref in doc.events && doc.events[ref].kind == kind
  }

  /** The date of the last event among `refs` whose type is `kind`; each later one overwrites. */
  function LastDate(doc: Doc, refs: seq<Handle>, kind: string): (r: Option<Date>)
    ensures r.Some? <==> exists i :: 0 <= i < |refs| && IsEvent(doc, refs[i], kind)
    ensures r.Some? ==> exists i :: (0 <= i < |refs| && IsEvent(doc, refs[i], kind) &&
      doc.events[refs[i]].date == r.value && forall j :: i < j < |refs| ==> !IsEvent(doc, refs[j], kind))
  {
    if |refs| == 0 then None
    else
      var last := refs[|refs| - 1];
      if IsEvent(doc, last, kind) then Some(doc.events[last].date)
      else
        var init := refs[..|refs| - 1];
        var r := LastDate(doc, init, kind);
        assert forall i :: 0 <= i < |init| ==> init[i] == refs[i];
        r
  }

  /** The dates of the events among `refs` whose type is in `kinds`, in document order. */
  function DatesOf(doc: Doc, refs: seq<Handle>, kinds: set<string>): (ds: seq<Date>)
    ensures |ds| <= |refs|
  {
    if |refs| == 0 then []
    else
      var last := refs[|refs| - 1];
      DatesOf(doc, refs[..|refs| - 1], kinds)
        + (if last in doc.events && doc.events[last].kind in kinds then [doc.events[last].date] else [])
  }

  /** Every date the record's last event of a kind carries is among the dates of that kind. */
  lemma {:induction false} LastDateIsAmongDates(doc: Doc, refs: seq<Handle>, kind: string, kinds: set<string>)
    requires kind in kinds
    requires LastDate(doc, refs, kind).Some?
    ensures LastDate(doc, refs, kind).value in DatesOf(doc, refs, kinds)
  {
    var last := refs[|refs| - 1];
    if !(last in doc.events && doc.events[last].kind == kind) {
      LastDateIsAmongDates(doc, refs[..|refs| - 1], kind, kinds);
    }
  }

  /** One more event reference: how the last date of a kind and the list of dates grow. */
  lemma EventRefStep(doc: Doc, refs: seq<Handle>, i: nat, kind: string)
    requires i < |refs|
    ensures LastDate(doc, refs[..i + 1], kind) ==
      if IsEvent(doc, refs[i], kind) then Some(doc.events[refs[i]].date) else LastDate(doc, refs[..i], kind)
    ensures DatesOf(doc, refs[..i + 1], {kind}) ==
      DatesOf(doc, refs[..i], {kind}) + if IsEvent(doc, refs[i], kind) then [doc.events[refs[i]].date] else []
  {
    assert refs[..i + 1][..i] == refs[..i];
  }

  /** The handles of a family record's `father` and `mother`, in that order. */
  function ParentHandles(rec: FamilyRecord): (hs: seq<Handle>)
    ensures |hs| <= 2
  {
    (if rec.father.Some? then [rec.father.value] else []) + (if rec.mother.Some? then [rec.mother.value] else [])
  }

  /** The key `childref` looks a child up by: its `hlink`, or "null" when the attribute is missing. */
  function HlinkKey(ref: Option<Handle>): Handle {
    if ref.Some? then ref.value else "null"
  }

  /** The keys of the `childref` elements, in order: none is skipped. */
  function NullableHandles(refs: seq<Option<Handle>>): (hs: seq<Handle>)
    ensures |hs| == |refs|
    ensures forall i :: 0 <= i < |refs| && refs[i].Some? ==> hs[i] == refs[i].value
    ensures forall i :: 0 <= i < |refs| && refs[i].None? ==> hs[i] == "null"
  {
    seq(|refs|, i requires 0 <= i < |refs| => HlinkKey(refs[i]))
  }

  lemma NullableHandlesStep(refs: seq<Option<Handle>>, i: nat)
    requires i < |refs|
    ensures NullableHandles(refs[..i + 1]) == NullableHandles(refs[..i]) + [HlinkKey(refs[i])]
  {
  }
}
