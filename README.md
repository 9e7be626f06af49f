# Radial family tree: the data engine, in Dafny

The viewer reads a Gramps XML export and draws a radial family tree. The root family sits in
the middle. Ancestors go on rings further out and descendants on rings further in. Before it
draws anything, the viewer runs a data engine:

- It walks the family graph breadth first from a configured root family, through a queue of
  families still to visit, kept in insertion order (`familiesToDo`).
- It gives every person and family a level (ring).
- It records parent and child links.
- It reads birth, death and marriage events.
- It estimates the dates the document lacks.
- It decides where each person goes on the ring: a list of sort items compared from the end
  (two older versions), or an angle in the sector of its family (newest version).

Three iterations of that engine exist side by side in the repository, and each is modelled in
its own module:

- `Models` models `src/models/*`, the newest version: TypeScript classes using luxon. Its classes `Tree`, `Person`, `Family` and `Data` have fields updated in place.
- `LegacyTs` models `src/ts/Data.ts` and `src/ts/TreeNode.ts`, which use moment and d3 v4 maps, with the same four classes. `src/ts/model/Person.ts`, `src/ts/model/Family.ts` and `src/ts/model/TreeNode.ts` repeat the code of `src/ts/TreeNode.ts` line for line (Person from line 31 there, Family from line 15), so this module models them too.
- `LegacyJs` models `js/src/index.js`, which uses d3 v3. A class `JsData` holds the script's `data` object and its `familiesToDo` map. Persons and families are plain records (datatypes).

The modules they share are pure:

- `Dates`: instants as integer milliseconds, `addToDateRange`, the reductions and means the
  estimates use.
- `Document`: the parsed XML, and what the selectors read from it.
- `Lifespan`: `estimateLifespan`.
- `Estimation`: the marriage and person date rules and the family name, as functions. The
  class methods are proved against them.
- `Levels`: `addToLevel`'s list arithmetic.
- `Sorting`: `sortLevel` and the sort-list heads.
- `Layout`: sector widths, centres and angles, and the marriage arc.
- `OrderedMap`: a JavaScript `Map` or d3 map in insertion order.
- `JsArrays`: `indexOf`, `splice` and `filter`.
- `Wrappers`: `Option`, `Result` and `Outcome`.

The models stay close to the code:

- **Errors.** A thrown error or a `TypeError` is an `Outcome` or `Result` failure, with a
  constant for each source message: `EmptyFamily`, `NoMarriageData`, `NoParentLevel`,
  `SourceNotFound`, `CantSortPeople`, and `UndefinedValue` for a read of `undefined` or `null`.
- **Clock and calendar.** The current time is a parameter `now`. Calendar arithmetic (adding
  years, the UTC year, differences in years) is a `Calendar` record of functions passed in,
  because the date libraries are not part of this model. A bare number given to moment's `add`
  or `subtract` counts milliseconds, and `AddMillis` models exactly that.
- **Quirks kept.** Quirks of the code are modelled as written and stated in lemmas, not
  corrected. Examples:
  - the lost `× 1.5` in the newest person estimate (`?? 0 * 1.5`);
  - the mean of millisecond fields in the marriage estimate;
  - `splice(indexOf(p))` with a missing person;
  - legacy lifespans added as milliseconds.
- **The rotation walk.** `TreeNode` defines the walk as `setRotationChildren`, while
  `Person.getRotationChildren` and `Family.getRotationChildren` call it through `super` as
  `getRotationChildren`. The model reads both names as the same walk, whose result is stored
  in `rotationChildren`.

## Model

| member | source | states |
|---|---|---|
| Models.Tree.constructor | src/models/Tree.ts:17-27 | an empty tree: no people, families, links or levels, maxLevel 0, no date range |
| Models.Tree.AddToLevel | src/models/Tree.ts:29-41 | the level's list becomes `AddedToLevel` of the old list (created when missing) and the person's level is set; the lemmas in `Levels` say what that list is |
| Models.Tree.AddToDateRange | src/models/Tree.ts:43-59 | the range becomes `WithDate(old, d)`, whose contract says both bounds are set and enclose `d` |
| Models.Person.New | src/models/Person.ts:45-64 | a new handle is registered and set up; a registered handle gives a fresh object that is neither registered nor set up, and the tree is unchanged; either way a cleared estimate flag comes with its date |
| Models.Person.constructor | src/models/Person.ts:26-40 | the declared initial field values (angle 0, Female, no families, both flags set, empty names) |
| Models.Person.Register | src/models/Person.ts:48-63 | `people[handle] := this`, complete, and the record loaded as `Load` states; a cleared estimate flag keeps coming with its date |
| Models.Person.Setup | src/models/Person.ts:66-147 | a missing record only marks it complete; otherwise gender, links, events, names and the estimate as in `Load`, and the date range widened by the Birth and Death dates in order; a cleared birth or death flag keeps coming with its date (`Consistent` is preserved) |
| Models.Person.SetUpOnce | src/models/Data.ts:118-121 | the person is complete afterwards and level, angle and order are untouched |
| Models.Person.Load | src/models/Person.ts:79-144 | gender from the text "M", first name or "", surnames appended, and the dates equal `EstimatePerson` of the event dates and the two families' definite marriages; `Consistent` is preserved, since a Birth or Death event clears its flag only while setting its date |
| Models.Person.LinkFamilies | src/models/Person.ts:84-98 | `parentIn` and `childOf` are the registered family for the named handle, else a new reference |
| Models.Person.LinkParentIn | src/models/Person.ts:84-90 | `parentIn` is the family registered under the named handle after the call |
| Models.Person.LinkChildOf | src/models/Person.ts:92-98 | `childOf` is the family registered under the named handle after the call |
| Models.Person.ReadEvents | src/models/Person.ts:100-123 | the dates equal `WithEvents` of the references and the range grows by each Birth or Death date |
| Models.Person.ReadEvent | src/models/Person.ts:107-122 | Birth sets birth and clears its flag, Death the same for death, each widening the range; any other event changes nothing |
| Models.Person.Estimate | src/models/Person.ts:157-195 | the dates become `EstimatePerson` of the old dates and the definite marriages of `parentIn` and `childOf` |
| Models.Person.GetRotationChildren | src/models/Person.ts:149-155 | no `childOf`: empty result and nothing stored; otherwise the stored result is the walk from `childOf` with the person as source and only seed |
| Models.Family.constructor | src/models/Family.ts:16-31 | registered under its handle (replacing any family there), not complete, no members, marriage an estimate without date |
| Models.Family.Setup | src/models/Family.ts:33-94 | no record: fails with "Empty family"; otherwise parents and children are the record's handles in order (empty child hlinks skipped); a pass leaves a marriage date |
| Models.Family.Finish | src/models/Family.ts:90 | the estimate fails only with `NoMarriageData`, and does fail when an estimated marriage has no `MarriageEstimate`; a pass leaves the definite marriage or `MarriageEstimate` of the members' dates, and every unfixed member filled in around it |
| Models.Family.Load | src/models/Family.ts:38-88 | parent handles, child handles, marriage from the last Marriage event, and the name |
| Models.Family.LoadRest | src/models/Family.ts:52-88 | child handles, marriage from the last Marriage event, and the name |
| Models.Family.LoadMembers | src/models/Family.ts:70-88 | child handles appended in order, then the name |
| Models.Family.SetName | src/models/Family.ts:85-88 | the name is `FamilyName` of the parents' surname lists: the first 'Taken' surname of the first parent that has one, else "Unknown" |
| Models.Family.LoadParents | src/models/Family.ts:39-48 | the father's then the mother's handle are appended, each a fresh person |
| Models.Family.LoadParent | src/models/Family.ts:40-42 | exactly one fresh person with that handle is pushed |
| Models.Family.ReadMarriage | src/models/Family.ts:52-68 | the marriage is the last Marriage event's date, definite, else unchanged; the range grows by every Marriage date |
| Models.Family.LoadChildren | src/models/Family.ts:70-83 | the child handles are `ChildHandles(refs)` appended in order |
| Models.Family.LoadChild | src/models/Family.ts:78-82 | the pushed child is the registered person when there is one, and is registered afterwards |
| Models.Family.GetRotationChildren | src/models/Family.ts:96-100 | the stored result is the walk from this family with its first child (or none) as source and no seeds |
| Models.Family.Estimate | src/models/Family.ts:102-196 | an estimated marriage becomes `MarriageEstimate` of the members' births, or the call fails with `NoMarriageData` leaving every date as it was; on a pass every unfixed member is filled in from the marriage |
| Models.Family.FillIn | src/models/Family.ts:175-195 | every unfixed parent and child gets the fill-in dates for the marriage |
| Models.Family.FillParents | src/models/Family.ts:175-184 | every listed parent is born 25 years before the marriage and dies a lifespan later |
| Models.Family.FillChildren | src/models/Family.ts:186-195 | the child at (last) index `i` is born `2 + 2i` years after the marriage and dies a lifespan later |
| Models.ChildHandles | src/models/Family.ts:70-76 | no handle kept is empty, and there are no more handles than references |
| Models.Unfixeds | src/models/Family.ts:175-176 | exactly the people whose two dates are both estimates |
| Models.SlotOf | src/models/Data.ts:65-87 | where the source person is: its first index among parents, else among children, else missing, else no source |
| Models.ParentLinks | src/models/Data.ts:199-203 | one parent link per parent, in order |
| Models.ChildLinks | src/models/Data.ts:142-146 | one child link per child, in order |
| Models.Data.constructor | src/models/Data.ts:15-27 | an empty tree and an empty queue |
| Models.Data.FamilyFor | src/models/Person.ts:87-89 | the registered family under `h`, else a fresh incomplete one now registered |
| Models.Data.Dequeue | src/models/Data.ts:99 | the oldest entry is removed and the rest keep their order |
| Models.Data.ParseData | src/models/Data.ts:29-150 | a missing root fails with `UndefinedValue`; a pass empties the queue and has set up the root family |
| Models.Data.Drain | src/models/Data.ts:36-150 | a pass empties the queue; the loop ends because every turn removes a queued family or completes one of finitely many |
| Models.Data.Step | src/models/Data.ts:36-57 | a complete family is dropped from the front; otherwise the turn completes it; either way the measure decreases |
| Models.Data.Visit | src/models/Data.ts:45-147 | the family is set up and walked; a pass completes it |
| Models.Data.SetUpFamily | src/models/Data.ts:41-51 | the family registered under `h` (or a new one) is set up and complete |
| Models.Data.SetUp | src/models/Data.ts:46-47 | the registered family is set up and complete |
| Models.Data.Walk | src/models/Data.ts:53-147 | the family gets the queued level and `maxLevel` the maximum; the only failure is a source person that is not a member |
| Models.Data.Enter | src/models/Data.ts:94-99 | level set, `maxLevel` is the maximum, the oldest entry removed |
| Models.Data.PlaceMembers | src/models/Data.ts:101-147 | the parents' loop, then the children's, keeping the queue and the registry valid |
| Models.Data.ProcessParents | src/models/Data.ts:102-110 | each given parent (the family's parents other than the source) gets `ParentAngle` and `parentOrder` of its (last) index, and one parent link each is appended in order |
| Models.Data.ParentTurn | src/models/Data.ts:104-110 | one loop turn keeps the loop invariant one index further |
| Models.Data.PlaceParent | src/models/Data.ts:105-109 | the parent gets its angle and order, and one parent link is appended |
| Models.Data.AddParentSorting | src/models/Data.ts:172-204 | setup; level joined only when absent or 0; the family of origin queued at level+1 with the parent as source unless complete; "No parent level" only with no level; link pushed unless it throws |
| Models.Data.JoinLevel | src/models/Data.ts:173-182 | complete, and the level and level lists change exactly when the level was absent or 0 |
| Models.Data.QueueParentFamily | src/models/Data.ts:184-203 | the queueing, then the link, which a failure skips |
| Models.Data.QueueUp | src/models/Data.ts:185-196 | `familiesToDo.set(childOf, {level + 1, parent})` exactly when the family of origin is not complete, else the queue is unchanged |
| Models.Data.ProcessChildren | src/models/Data.ts:113-147 | each given child (the children other than the source) is complete, has a level, gets `ChildAngle` of its (last) index, and one child link each is appended in order |
| Models.Data.ChildTurn | src/models/Data.ts:115-147 | one loop turn keeps the loop invariant one index further |
| Models.Data.PlaceChild | src/models/Data.ts:118-146 | complete; level `level - 1` when absent or 0; angle `ChildAngle(i)`; one child link |
| Models.Data.PositionChild | src/models/Data.ts:123-146 | level, angle and the link as in `PlaceChild` |
| Models.MapOf | src/models/TreeNode.ts:41 | `new Map(entries)`: a valid map whose keys are the entries' keys |
| Models.EnqueueOne | src/models/TreeNode.ts:49-51 | the worklist grows by at most the person's next family, appended with the person as source only when not yet a key |
| Models.Enqueued | src/models/TreeNode.ts:44-62 | the old worklist is a prefix; every next family is a key; every new entry is some person's next family |
| Models.VisitKeeps | src/models/TreeNode.ts:43-63 | visiting one entry only appends families of the graph, and afterwards every member's next family is a key |
| Models.WalkBound | src/models/TreeNode.ts:43-63 | the worklist never grows beyond the number of families, so the `for…of` loop ends |
| Models.WalkStep | src/models/TreeNode.ts:43-63 | processing entry `i` keeps the walk's shape one entry further and adds its members |
| Models.WalkStart | src/models/TreeNode.ts:41 | the walk's shape holds for `new Map(families)` before any entry is processed |
| Models.RotationWalkMeans | src/models/TreeNode.ts:33-66 | the seeds are in the result; every walked family's non-source members are in it and their next families walked; nothing else is in it |
| Models.RotationSet | src/models/TreeNode.ts:33-65 | the result and worklist satisfy `RotationWalk` |
| Models.WalkAll | src/models/TreeNode.ts:43-63 | the loop ends with the whole worklist walked and the result the seeds plus everything reached |
| Models.RotationTurn | src/models/TreeNode.ts:43-63 | one turn keeps the walk's shape and result one entry further |
| Models.RotationStep | src/models/TreeNode.ts:44-62 | one entry's parents then children are enqueued and added |
| Models.EnqueueParents | src/models/TreeNode.ts:44-52 | the worklist becomes `Enqueued(…, ups, true)` and the result gains the parents |
| Models.EnqueueChildren | src/models/TreeNode.ts:54-62 | the worklist becomes `Enqueued(…, downs, false)` and the result gains the children |
| Models.StepKeepsWalk | src/models/TreeNode.ts:43-63 | one turn's bookkeeping keeps the walk's shape and result |
| LegacyTs.Tree.constructor | src/ts/Data.ts:221-229 | an empty tree |
| LegacyTs.Tree.AddToLevel | src/ts/Data.ts:251-264 | the level's list becomes `AddedToLevel` of the old list, and the person's level is set |
| LegacyTs.Tree.AddToDateRange | src/ts/Data.ts:266-278 | the range becomes `WithDate(old, d)` |
| LegacyTs.Person.constructor | src/ts/TreeNode.ts:53-56 | only the handle is defined |
| LegacyTs.Person.New | src/ts/TreeNode.ts:53-76 | a new handle is registered and set up, failing only with `UndefinedValue`; a registered handle gives a bare object and changes nothing |
| LegacyTs.Person.Register | src/ts/TreeNode.ts:58-75 | `people[handle] := this`, complete; a failure is `UndefinedValue` |
| LegacyTs.Person.Setup | src/ts/TreeNode.ts:78-175 | a missing record only marks it complete; otherwise gender, links, the event dates and inference, names, and the range as `RangeAfter` says |
| LegacyTs.Person.Read | src/ts/TreeNode.ts:85-169 | the record's reading: links, dates, names, range |
| LegacyTs.Person.Identify | src/ts/TreeNode.ts:86-105 | gender from "M", then the two family links |
| LegacyTs.Person.SetUpOnce | src/ts/Data.ts:169-174 | complete afterwards, failing only with `UndefinedValue`; an already complete person passes with its gender kept |
| LegacyTs.Person.Load | src/ts/TreeNode.ts:107-169 | the dates as `EventDates` then `LegacyInfer`, the range, then the names |
| LegacyTs.Person.LinkFamilies | src/ts/TreeNode.ts:91-105 | both links are the registered family, else a new reference |
| LegacyTs.Person.LinkParentIn | src/ts/TreeNode.ts:91-97 | `parentIn` is the family registered under the named handle |
| LegacyTs.Person.LinkChildOf | src/ts/TreeNode.ts:99-105 | `childOf` is the family registered under the named handle |
| LegacyTs.Person.ReadEvents | src/ts/TreeNode.ts:112-133 | the dates equal `WithEvents` and the range grows by each Birth or Death date |
| LegacyTs.Person.ReadEvent | src/ts/TreeNode.ts:117-132 | Birth or Death sets that date and clears its flag and widens the range; others change nothing |
| LegacyTs.Person.Infer | src/ts/TreeNode.ts:135-151 | the dates become `LegacyInfer`'s, and the upper bound becomes now exactly for a living person |
| LegacyTs.Person.ReadName | src/ts/TreeNode.ts:153-169 | a missing `<first>` fails with `UndefinedValue`; otherwise the first name and the surnames in order |
| LegacyTs.EventDates | src/ts/TreeNode.ts:107-133 | after the events a flag is set exactly when its kind of event is missing |
| LegacyTs.SetUpDates | src/ts/TreeNode.ts:107-151 | event dates win; with no events the old dates stay, both flags set; living exactly per `IsLiving` |
| LegacyTs.Family.constructor | src/ts/TreeNode.ts:185-200 | registered under its handle, not complete, no members, no marriage |
| LegacyTs.Family.Setup | src/ts/TreeNode.ts:202-348 | a missing record only marks it complete; otherwise the handles in order (missing hlinks as "null"), a marriage on a pass, failures only `UndefinedValue` or `NoMarriageData` |
| LegacyTs.Family.Load | src/ts/TreeNode.ts:207-344 | the record's parents and children in order and a marriage on a pass |
| LegacyTs.Family.LoadRest | src/ts/TreeNode.ts:219-344 | children in order and a marriage on a pass |
| LegacyTs.Family.Finish | src/ts/TreeNode.ts:251-344 | a parent without surnames fails with `UndefinedValue` leaving name and marriage; on a pass the name is `LegacyFamilyName` (the first parent's first 'Taken' surname), the marriage is the read one or `LegacyMarriageEstimate` of the members' dates, and every unfixed member is filled in around it |
| LegacyTs.Family.LoadParents | src/ts/TreeNode.ts:208-217 | father's then mother's handle pushed as fresh persons, or `UndefinedValue` |
| LegacyTs.Family.LoadParent | src/ts/TreeNode.ts:209-211 | one fresh person pushed, or nothing on failure |
| LegacyTs.Family.ReadMarriage | src/ts/TreeNode.ts:219-239 | estimate flag set exactly when there is no Marriage event; otherwise the marriage is the last one's date; the range grows by every Marriage date |
| LegacyTs.Family.LoadChildren | src/ts/TreeNode.ts:241-249 | children appended as `NullableHandles(refs)` in order |
| LegacyTs.Family.LoadChild | src/ts/TreeNode.ts:244-248 | the registered person when there is one, else a new one, pushed |
| LegacyTs.Family.Estimate | src/ts/TreeNode.ts:255-344 | an estimated marriage becomes `LegacyMarriageEstimate`'s or the call fails with its error leaving every date; a pass fills in every unfixed member |
| LegacyTs.Family.Fill | src/ts/TreeNode.ts:326-344 | every unfixed parent and child gets the fill-in dates |
| LegacyTs.Family.Marry | src/ts/TreeNode.ts:255-324 | the marriage estimate alone; members' dates untouched |
| LegacyTs.Family.FillParents | src/ts/TreeNode.ts:326-333 | every listed parent is born 25 years before the marriage, dies a lifespan later |
| LegacyTs.Family.FillChildren | src/ts/TreeNode.ts:335-344 | the child at (last) index `i` is born `2 + 2i` years after the marriage |
| LegacyTs.Family.ParentsArc | src/ts/TreeNode.ts:351-369 | fewer than two parents is a TypeError; otherwise the ends are the two parents' angles and, within 540°, the arc is never large |
| LegacyTs.Unfixeds | src/ts/TreeNode.ts:326-327 | exactly the people whose two dates are both estimates |
| LegacyTs.ParentLinks | src/ts/Data.ts:205-209 | one parent link per parent, in order |
| LegacyTs.ChildLinks | src/ts/Data.ts:133-137 | one child link per child, in order |
| LegacyTs.Data.constructor | src/ts/Data.ts:12-24 | an empty tree and an empty queue |
| LegacyTs.Data.FamilyFor | src/ts/TreeNode.ts:94-96 | the registered family under `h`, else a fresh incomplete one now registered |
| LegacyTs.Data.Dequeue | src/ts/Data.ts:61 | the oldest entry is removed, the rest keep their order |
| LegacyTs.Data.ParseData | src/ts/Data.ts:26-140 | a missing root fails with `UndefinedValue`; a pass empties the queue having set up the root family |
| LegacyTs.Data.Drain | src/ts/Data.ts:35-140 | a pass empties the queue; the loop terminates |
| LegacyTs.Data.Step | src/ts/Data.ts:35-50 | a complete family is dropped; otherwise it is completed; the measure decreases |
| LegacyTs.Data.Visit | src/ts/Data.ts:40-138 | the family is set up and walked; a pass completes it |
| LegacyTs.Data.SetUpFamily | src/ts/Data.ts:40-50 | the registered (or new) family is set up and complete |
| LegacyTs.Data.SetUp | src/ts/Data.ts:45-46 | the registered family is set up and complete |
| LegacyTs.Data.Walk | src/ts/Data.ts:52-138 | failures are only `UndefinedValue`; completed families stay complete |
| LegacyTs.Data.PlaceMembers | src/ts/Data.ts:63-138 | on a pass the links grow by the parent links then the child links, in order |
| LegacyTs.Data.Enter | src/ts/Data.ts:56-61 | level set, `maxLevel` the maximum, the oldest entry removed |
| LegacyTs.Data.ProcessParents | src/ts/Data.ts:64-66 | on a pass every parent is complete, has a level and `ParentSortList` by gender, and one link each in order |
| LegacyTs.Data.ParentTurn | src/ts/Data.ts:64-66 | one loop turn keeps the loop invariant one index further; the parent keeps its own level or takes the family's, and the queue grows as `QueuedUp` says |
| LegacyTs.Data.AddParentSorting | src/ts/Data.ts:167-210 | failures are only `UndefinedValue` and leave the queue; on a pass the parent is complete, keeps its own level or takes the family's, its sort list is the family list headed Parent or Spouse by gender, its family of origin is queued at level+1 unless complete, and one parent link is appended |
| LegacyTs.Data.Attach | src/ts/Data.ts:180-209 | the parent gets `ParentSortList` of the family list by gender, its family of origin is queued as `QueuedUp` says, and one parent link is appended |
| LegacyTs.Data.JoinLevel | src/ts/Data.ts:169-178 | complete on a pass; a parent without a level takes the family's and is appended to that level's list, one with a level keeps it and the lists |
| LegacyTs.Data.LevelParent | src/ts/Data.ts:176-178 | a parent without a level joins the family's level, appended; one with a level is left alone |
| LegacyTs.Data.QueueUp | src/ts/Data.ts:193-202 | the family of origin is set to `{level + 1, UpwardSorting(parent list)}` exactly when it is not complete, else the queue is unchanged |
| LegacyTs.Data.ProcessChildren | src/ts/Data.ts:91-138 | on a pass every child is complete with a level and `ChildSortList` of its last index, and one link each in order |
| LegacyTs.Data.ChildTurn | src/ts/Data.ts:92-137 | one loop turn keeps the loop invariant one index further; the child keeps its own level or takes `level - 1` |
| LegacyTs.Data.PlaceChild | src/ts/Data.ts:95-137 | complete; level `level - 1` when absent; `ChildSortList(i)`; one child link |
| LegacyTs.Data.PositionChild | src/ts/Data.ts:100-137 | the level list grows exactly when the child had no level, then the sort list and the link |
| LegacyJs.GetPerson | js/src/index.js:89-136 | null exactly for a missing person; a TypeError exactly for a missing first name; otherwise the record's handle, gender, families and first name |
| LegacyJs.GetFamily | js/src/index.js:138-165 | null exactly for a missing family; otherwise father and mother exactly when present and the child hlinks in order, "null" for a missing one |
| LegacyJs.WithSlot | js/src/index.js:455 | the slot holds the object and the other slot and the children are untouched |
| LegacyJs.ChildLinks | js/src/index.js:559-564 | one child link per child handle, in order |
| LegacyJs.JsData.constructor | js/src/index.js:10-18 | the empty `data` object and queue |
| LegacyJs.JsData.AddToLevel | js/src/index.js:408-415 | the list (created when missing) gets the person appended |
| LegacyJs.JsData.Store | js/src/index.js:441-443 | the person is stored with its level and sort list and appended to its level |
| LegacyJs.JsData.Schedule | js/src/index.js:446-448 | `familiesToDo.set(key, entry)` |
| LegacyJs.JsData.AddParent | js/src/index.js:417-463 | fails exactly for an unstored unreadable person, changing nothing; a new parent is stored with `ParentSortList` by slot; on a pass the slot holds the object and one parent link is pushed |
| LegacyJs.JsData.NewParent | js/src/index.js:422-448 | the person stored with the family's level, appended to it, and its family of origin queued one level out unless stored |
| LegacyJs.JsData.Attach | js/src/index.js:454-462 | the slot switched to the object and the parent link pushed |
| LegacyJs.JsData.AddChild | js/src/index.js:519-564 | fails exactly for an unstored unreadable child; a new child is stored at `level - 1` with `ChildSortList(i)`; on a pass slot `i` holds it and one child link is pushed |
| LegacyJs.JsData.NewChild | js/src/index.js:525-555 | the child stored, appended to its level, and the family it is a parent in queued at its level unless stored |
| LegacyJs.JsData.Adopt | js/src/index.js:557-564 | child slot `i` switched and the child link pushed |
| LegacyJs.JsData.ParseData | js/src/index.js:465-566 | failures are `UndefinedValue`; a missing root stores nothing; a pass empties the queue, stores the root at level 1, and every stored family has all slots switched to objects |
| LegacyJs.JsData.Step | js/src/index.js:474-565 | one turn keeps the walk's invariant and stores one more family of the finite universe |
| LegacyJs.JsData.Visit | js/src/index.js:474-565 | the family was not stored before; an unknown handle fails storing nothing; a pass stores it resolved with its level, `maxLevel` the maximum, and the father's, mother's and children's links in order |
| LegacyJs.JsData.Process | js/src/index.js:481-565 | store the family, then its parents and children |
| LegacyJs.JsData.Fill | js/src/index.js:491-565 | the stored family resolved, with its links in order |
| LegacyJs.JsData.Enter | js/src/index.js:481-489 | level, `maxLevel`, dequeue, and the family stored |
| LegacyJs.JsData.Dequeue | js/src/index.js:475-486 | the oldest entry removed, none left with its key, the rest in order |
| LegacyJs.JsData.AddParents | js/src/index.js:491-517 | father then mother switched to objects and their links pushed |
| LegacyJs.JsData.ParentTurn | js/src/index.js:491-492 | `if (family[spouse]) addParent(…)`: a filled slot resolved with one link, an empty one untouched |
| LegacyJs.JsData.ChildTurn | js/src/index.js:520-564 | one more child slot switched and one link pushed |
| LegacyJs.JsData.AddChildren | js/src/index.js:519-565 | every child slot switched in order and one link each |
| LegacyJs.ObjSlot | js/src/index.js:455 | a filled slot holds the stored object with the same key |
| LegacyJs.Resolved | js/src/index.js:455-557 | every slot switched; handle and child keys kept |
| LegacyJs.Resolve | js/src/index.js:454-455 | the filled `spouse` slot switched, the rest untouched |
| LegacyJs.RoleLink | js/src/index.js:457-462 | one link exactly when the slot is filled |
| LegacyJs.ParentLinks | js/src/index.js:491-517 | at most two links |
| LegacyJs.ReplacedUpTo | js/src/index.js:557 | the first `n` child slots switched, the rest and the parents untouched |
| Dates.Trunc | src/models/Family.ts:169 | `new Date(x)` truncates toward zero |
| Dates.MsField | src/models/Family.ts:117 | `getUTCMilliseconds()` lies in 0-999 and differs from the instant by whole seconds |
| Dates.AddMillis | src/ts/TreeNode.ts:141-143 | within one millisecond of `d + ms`, never on the wrong side of `d` |
| Dates.WithDate | src/models/Tree.ts:43-59 | both bounds set, enclosing `d`, each either `d` or the old bound |
| Dates.WithDatesSnoc | src/models/Tree.ts:43-59 | one more date is one more `addToDateRange` |
| Dates.FirstDateSetsBoth | src/models/Tree.ts:44-58 | the first date sets both bounds |
| Dates.WithDateIdempotent | src/models/Tree.ts:43-59 | adding a date twice is adding it once |
| Dates.WithDateCommutes | src/models/Tree.ts:43-59 | the order of two dates does not matter |
| Dates.WithDatesCovers | src/models/Tree.ts:43-59 | every added date and the old bounds lie within the range |
| Dates.Earliest | src/models/Family.ts:110-112 | the reduction yields an element no later than any other |
| Dates.EarliestOrUndefinedAllDefined | src/ts/TreeNode.ts:305-307 | with every birth defined the reduction is the earliest |
| Dates.TrailingUndefinedWins | src/ts/TreeNode.ts:305-307 | a trailing undefined birth makes the reduction undefined |
| Dates.Mean | src/models/Family.ts:114-118 | `d3.mean`: undefined exactly for an empty list, else sum divided by count |
| Dates.RunningMeanIsMean | src/ts/TreeNode.ts:275-278 | the running-mean reduction equals the arithmetic mean |
| Dates.MeanBounds | src/models/Family.ts:114-118 | a mean of values in [lo, hi] is in [lo, hi] |
| Dates.MsFields | src/models/Family.ts:117 | the millisecond fields, one per date |
| Dates.MsFieldMeanWithinOneSecond | src/models/Family.ts:114-118 | the mean of millisecond fields is an instant in the first second of 1970 |
| Document.RootHandle | src/models/Data.ts:30-32 | the handle of `family#id`, or `UndefinedValue` exactly when there is none |
| Document.GenderOf | src/models/Person.ts:79-82 | Male exactly for the text "M" |
| Document.LastDate | src/models/Person.ts:102-123 | the date of the last event of the kind, present exactly when there is one |
| Document.DatesOf | src/models/Person.ts:102-123 | the dates of the matching events, no more than the references (one step at a time in `Document.EventRefStep`) |
| Document.LastDateIsAmongDates | src/models/Person.ts:102-123 | the date kept is among the dates added to the range |
| Document.EventRefStep | src/models/Person.ts:102-123 | one more event reference: the last date and the date list each take one step |
| Document.ParentHandles | src/models/Family.ts:39-48 | at most two handles |
| Document.NullableHandles | src/ts/TreeNode.ts:241-249 | one key per `childref`, "null" for a missing hlink |
| Estimation.DefiniteBirths | src/models/Family.ts:107-109 | every definite, defined birth is kept; empty exactly when there is none |
| Estimation.KnownBirths | src/models/Family.ts:155-157 | every defined birth is kept; empty exactly when there is none |
| Estimation.Births | src/ts/TreeNode.ts:305-306 | every birth, undefined ones included, in order |
| Estimation.DefiniteSlots | src/ts/TreeNode.ts:264-266 | the falsy-flag births, possibly undefined |
| Estimation.SlotsOfConsistent | src/ts/TreeNode.ts:260-266 | with consistent flags, those are exactly the definite births |
| Estimation.CandidateMeanBetween | src/models/Family.ts:169 | the averaged candidate lies between the smallest and largest |
| Estimation.Candidates | src/models/Family.ts:137-163 | at most two; none exactly when no member has a birth |
| Estimation.MarriageEstimate | src/models/Family.ts:102-170 | fails with `NoMarriageData` exactly when there is no definite child birth, no truthy parent mean, and no birth at all |
| Estimation.DefiniteChildBounds | src/models/Family.ts:120-125 | with a definite child birth the marriage is at least two years before it |
| Estimation.ParentTierNearEpoch | src/models/Family.ts:114-131 | the parent tier yields 25 years after an instant in the first second of 1970 |
| Estimation.WholeSecondBirthsSkipParentTier | src/models/Family.ts:114-131 | whole-second parent births skip the parent tier to the candidate average |
| Estimation.FallbackBetweenCandidates | src/models/Family.ts:137-169 | the fallback lies between its candidates |
| Estimation.LegacyCandidates | src/ts/TreeNode.ts:287-312 | at most two; none exactly when no member has a birth |
| Estimation.LegacyMarriageEstimate | src/ts/TreeNode.ts:255-321 | `UndefinedValue` exactly for no definite child and an undefined definite parent birth; `NoMarriageData` exactly when nobody has a birth or a definite flag |
| Estimation.LegacyUndefinedChildBirthIsNow | src/ts/TreeNode.ts:260-270 | a trailing undefined definite child birth puts the marriage two years before now |
| Estimation.VersionsAgreeOnChildTier | src/ts/TreeNode.ts:260-270 | with a definite child birth both versions agree |
| Estimation.VersionsAgreeOnParentTier | src/ts/TreeNode.ts:271-281 | with a non-zero parent mean both versions agree |
| Estimation.WithEvents | src/models/Person.ts:102-123 | each date is the last event of its kind and its flag cleared, else unchanged |
| Estimation.EventStep | src/models/Person.ts:107-122 | one more event: the dates and the range each take one step |
| Estimation.FillInOrder | src/models/Family.ts:175-195 | filled-in parents are born before the marriage, children after, in list order |
| Estimation.DeathNotBeforeBirth | src/models/Family.ts:181-194 | a filled-in death is not before its birth for births from 1604 |
| Estimation.EstimatePerson | src/models/Person.ts:157-195 | flags never change; a death exists exactly when one was known or the age exceeds the (unscaled) lifespan |
| Estimation.EstimateKeepsDefinite | src/models/Person.ts:157-195 | definite dates are never reassigned |
| Estimation.ThresholdIgnoresFactor | src/models/Person.ts:160-168 | someone between 1 and 1.5 lifespans old still gets a death |
| Estimation.BirthFromOwnMarriage | src/models/Person.ts:176-181 | no birth and a definite own marriage: born 20 years before it |
| Estimation.BornAfterParentsMarriage | src/models/Person.ts:183-194 | an estimated birth ends no earlier than the parents' definite marriage |
| Estimation.LegacyInfer | src/ts/TreeNode.ts:135-151 | definite dates kept; living only with a definite birth and an estimated death, which is left as it was |
| Estimation.InferredDeathInMilliseconds | src/ts/TreeNode.ts:141-143 | the inferred death is `birth + lifespan` milliseconds, to within one |
| Estimation.InferredBirthInMilliseconds | src/ts/TreeNode.ts:148-150 | the inferred birth is `death − lifespan` milliseconds, to within one |
| Estimation.YoungDefiniteBirthIsLiving | src/ts/TreeNode.ts:135-146 | at most 1.5 lifespans old: living, no death set |
| Estimation.TakenName | src/models/Family.ts:87 | the first 'Taken' surname, none exactly when there is none |
| Estimation.FirstTakenName | src/models/Family.ts:86-88 | the first parent's name that is defined |
| Estimation.FamilyName | src/models/Family.ts:85-88 | that name, else "Unknown" |
| Estimation.LegacyFamilyName | src/ts/TreeNode.ts:251-253 | a TypeError exactly when some parent has no surnames |
| Estimation.NameVersionsAgree | src/ts/TreeNode.ts:251-253 | where the older version finds a name the newest agrees, else "Unknown" |
| JsArrays.IndexOf | src/models/Tree.ts:36 | the first index holding `x`, −1 exactly when absent |
| JsArrays.SpliceFrom | src/models/Tree.ts:36 | `splice(start)` leaves the prefix before the resolved start |
| JsArrays.Without | src/models/Data.ts:103-104 | `filter(p => p !== x)`: every other element kept in order, `x` gone |
| JsArrays.SpliceOfMissingDropsLast | src/models/Tree.ts:35-37 | `splice(-1)` drops the last element |
| JsArrays.LastIndex | src/models/Family.ts:186-195 | the last index of `x`: the write that survives |
| Layout.SectorWidth | src/models/Data.ts:62 | the width is positive |
| Layout.SectorHalvesPerLevel | src/models/Data.ts:62 | one level out halves the sector; level 1 is 180° |
| Layout.Centre | src/models/Data.ts:62-88 | 180 with no source, `SourceNotFound` exactly when the source is not a member |
| Layout.SourceChildKeepsItsAngle | src/models/Data.ts:79-83 | the source child's slot is where it already is |
| Layout.NextSiblingTakesSourceSlot | src/models/Data.ts:113-130 | the next sibling lands on the source child's angle |
| Layout.ChildAnglesInsideSector | src/models/Data.ts:127-130 | children go left to right strictly inside the sector |
| Layout.RootParentsAroundCentre | src/models/Data.ts:105 | the root's parents sit half a sector either side of 180 |
| Layout.OtherParentPlacement | src/models/Data.ts:70-73 | where the non-source parent goes, for each source index |
| Layout.Rem360 | src/ts/TreeNode.ts:355 | JavaScript `%`: sign of the dividend, whole turns removed |
| Layout.MarriageArc | src/ts/TreeNode.ts:351-368 | `first` starts the arc when the angle mod 360 exceeds 180, else `second`; the sweep is normalised and the large-arc and sweep flags follow from it |
| Layout.ArcWithinHalfTurn | src/ts/TreeNode.ts:363-367 | ends within 540° never give a large arc |
| Layout.NormalisedSweepCongruent | src/ts/TreeNode.ts:363-365 | normalising moves the sweep by a whole turn at most |
| Layout.SwappedEndsNegateSweep | src/ts/TreeNode.ts:355-365 | swapping the ends negates the sweep |
| Layout.NegativeAngleKeepsSecondFirst | src/ts/TreeNode.ts:355 | a negative angle never swaps |
| Levels.AddedLast | src/models/Tree.ts:35-40 | the person ends last, the list grows by at most one |
| Levels.UnmovedPersonIsAppended | src/models/Tree.ts:35-39 | without a level, level 0 or the same level: appended |
| Levels.MovedPresentPersonTruncates | src/models/Tree.ts:35-39 | a moved person already present cuts the list at its first occurrence |
| Levels.MovedAbsentPersonDropsLast | src/models/Tree.ts:35-39 | a moved absent person drops the list's last entry |
| Levels.MaxLevel | src/models/Data.ts:97 | the larger of the two |
| Lifespan.BirthScale | src/models/TreeNode.ts:16-19 | 1775 gives 38 and 2019 the longest, linear between |
| Lifespan.BirthScaleIncreasing | src/models/TreeNode.ts:16-19 | strictly increasing in the year |
| Lifespan.DeathScaleAnchors | src/models/TreeNode.ts:20-23 | 1813 gives 38 and 2019 + longest the longest (92; 82 in src/ts/TreeNode.ts:21-31) |
| Lifespan.DeathScaleInvertsBirthScale | src/models/TreeNode.ts:20-23 | the death scale inverts the birth scale |
| Lifespan.EstimatePrecedence | src/models/TreeNode.ts:18-24 | a birth wins over a death; neither is undefined |
| OrderedMap.Get | src/models/Data.ts:53 | undefined exactly for an absent key |
| OrderedMap.Set | src/models/Data.ts:192-195 | the key maps to the value; a new key appends, a present one keeps its place |
| OrderedMap.SetKeepsOthers | src/models/Data.ts:192-195 | other keys keep their values |
| OrderedMap.Remove | src/models/Data.ts:99 | the key is gone, the rest in order |
| OrderedMap.GetAfterRemove | src/models/Data.ts:99 | after the removal the key is gone and the others keep their values |
| OrderedMap.RemoveFirst | src/models/Data.ts:37-99 | removing the oldest key leaves the rest, oldest first |
| Sorting.CompareFromEnd | src/ts/Data.ts:232-248 | throws exactly when the last `min(len)` orders agree; otherwise `b − a` at the first differing position from the end, never 0 |
| Sorting.SortLevel | src/ts/Data.ts:232-248 | the loop returns `CompareFromEnd` |
| Sorting.FirstDifferenceDecides | src/ts/Data.ts:239-245 | the first difference from the end decides |
| Sorting.SelfComparisonThrows | src/ts/Data.ts:247 | a person compared with itself throws |
| Sorting.CompareAntisymmetric | src/ts/Data.ts:232-248 | swapping the arguments negates the result |
| Sorting.CompareSharedTail | src/ts/Data.ts:232-248 | paths differing only in the head compare by the head |
| Sorting.ChildSortList | src/ts/Data.ts:104-118 | the family list with its first item replaced: `{Sibling, i ± 1}` after a `Child` item, else `{Child, i}`; Err exactly for an empty list |
| Sorting.ParentSortList | src/ts/Data.ts:180-190 | the incoming list with its first item replaced: Parent after a `Child` item, else Spouse, ordered −1 for left and +1 for right; Err exactly for an empty list |
| Sorting.SiblingsCompareByIndex | src/ts/Data.ts:104-118 | two children compare by `j − i`, never tie |
| Sorting.SpousesCompareLeftToRight | src/ts/Data.ts:180-190 | the two parents compare as 2 |
| Sorting.PassedSortingExtendsPath | src/ts/Data.ts:196-200 | a queued family's list is the person's list behind one new head |

## Left out

- The final sort of every level with `sortLevel` (js/src/index.js:568-570, src/ts/Data.ts:142-143). The comparison itself is modelled (`Sorting.SortLevel`), but Dafny has no `Array.prototype.sort` with an engine-defined order for a comparator that throws.
- `levelAvg`, the starting coordinates and the `nodeList` (src/ts/Data.ts:145-163, src/models/Data.ts:152-168). They are floating-point layout and d3 scales.
- The SVG name nodes (`nameSVG`, the `svg` selection and its `textPath`), the force layout, the d3 time scale and every `console.log`. These are drawing and I/O.
- The arc radius `scale(marriage)` and the path string built from `Pt.fromPolar`. They are trigonometry and string formatting. `Layout.MarriageArc` keeps everything up to the flags.
- `new Date(text)` parsing and Invalid Date. Event dates arrive already parsed as integer milliseconds.
- `data.xml === null`. The XML selection is always present in a running engine, so the constructor's stub branch is not modelled.
- The family selector `[handle=…]` matches any element with that handle. The model looks only at family records.
- Calendar arithmetic (luxon and moment years, `getUTCFullYear`, differences in years) is a `Calendar` of functions passed in. The date libraries are not part of this model.
- The root id setting (`settings.rootFamilyId`) is a parameter.
- Models.Person.New: the loaded fields are stated by `Models.Person.Register`, which `New` calls, not repeated in its own contract.
- LegacyTs.Person.New: the loaded fields are stated by `LegacyTs.Person.Setup`, not repeated in its own contract.
- Models.Data.Walk: the links and angles it produces are stated by `Models.Data.ProcessParents` and `Models.Data.ProcessChildren`, not by `Walk` itself.
- Models.Data.PlaceMembers: states only that the queue and the registry stay valid. The placements are stated by `Models.Data.ProcessParents` and `Models.Data.ProcessChildren`, which it calls.
- LegacyTs.Data.Walk: the links are stated by `LegacyTs.Data.PlaceMembers`, not by `Walk`.
- Models.Data.ParseData: states termination, the emptied queue and the set-up root. Levels and links are stated per turn by the members above, not summed over the whole walk.
- LegacyTs.Data.ParseData: same as `Models.Data.ParseData`.
- LegacyJs.JsData.AddParent: the level list and the queueing for a new parent are stated by `LegacyJs.JsData.NewParent`.
- LegacyJs.JsData.AddChild: the level list and the queueing for a new child are stated by `LegacyJs.JsData.NewChild`.
- Family and person objects of src/models and src/ts are modelled as classes with the references the source keeps. Event, name and document records are immutable values.
- The person and family objects of js/src/index.js are value records held in the maps of `LegacyJs.JsData`, reassigned whole on every change. In-place update and sharing of one object between several holders are not captured for them.
- Models.Family.Setup: the name, the marriage value and the fill-in are stated by `Models.Family.Load` and `Models.Family.Finish`, which it calls; its own contract states the members, the failure and that a pass leaves a marriage date.
- LegacyTs.Family.Setup: the name, the estimated marriage value and the fill-in are stated by `LegacyTs.Family.Finish`. The members' dates at the moment of the estimate are those of persons created within the same call, which its contract cannot name.
- LegacyTs.Family.Load: same as `LegacyTs.Family.Setup`.
- LegacyTs.Family.LoadRest: same as `LegacyTs.Family.Setup`.
- LegacyTs.Data.ProcessParents: states completion, sort lists and links for every parent; the level each parent ends with and the families queued are stated per turn by `LegacyTs.Data.ParentTurn` and `LegacyTs.Data.AddParentSorting`, not folded over the loop.
- LegacyTs.Data.ProcessChildren: states completion, a level, sort lists and links for every child; the level value each child ends with is stated per turn by `LegacyTs.Data.ChildTurn` and `LegacyTs.Data.PlaceChild`, not folded over the loop.
- LegacyTs.Data.PlaceMembers: the level values and the queueing are stated per member by the turns above, not folded over both loops.
