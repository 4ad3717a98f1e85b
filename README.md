# Blaze `DOMRange` in Dafny

A model of Meteor Blaze's `DOMRange` (packages/blaze/domrange.js) with proofs
about it. A `DOMRange` is a logical stretch of the document. It holds an
ordered `members` array of host nodes and nested ranges. Once attached under
a parent element, it keeps that element's children in step with its members.
An attached range with no members shows one empty text node, its placeholder.

The model keeps every range in one store, keyed by a range id, instead of
one heap object per range:

- `HostTree` (host.dfy): the document as the child list of every container
  and the parent of every placed node. It has `insertBefore` (with the DOM
  Standard's pre-insert rule for a node inserted before itself),
  `removeChild`, `nextSibling` and `Blaze._elementContains`.
- `Ranges` (ranges.dfy): members, the nodes a range stands for (`Flat`),
  the ranges nested in it (`Desc`) and the augmenter calls an attach or
  detach makes (`Hooks`). A ghost level per range makes the member graph
  acyclic, so these functions terminate.
- `Engine` (engine.dfy): `_insert`, `_remove`, `attach` and `detach`, as
  methods that take the tree, the per-range records (`attached`,
  `parentElement`, `emptyRangePlaceholder`) and the augmenter call log, and
  hand them back. `Steps` (steps.dfy) holds what their loops keep true.
- `BackLinks` (links.dfy): `_memberIn` and `_memberOut`, which set the
  `parentRange` and `$blaze_range` back-pointers.
- `Editing` (editing.dfy): `firstNode`, `lastNode`, `setMembers`,
  `addMember`, `removeMember`, `moveMember` and `getMember`.
- `Lifecycle` (lifecycle.dfy): the constructor, `stop`, `onstop` and
  `addDOMAugmenter`.
- `Queries` (queries.dfy): `containsElement` and `containsRange`.
- `DomRange` (domrange.js's objects, domrange.dfy): class `Dom` holds the
  whole store in one field. Each of its methods runs one operation and
  writes the new store back in place.
- `Findings` (findings.dfy): `moveMember` as written, and three inputs on
  which it breaks the range.

A call into code the range does not own is appended to a log: an
augmenter's `attach` or `detach`, or a stop callback. Augmenters and stop
callbacks are opaque ids.

## Model

| member | source | states |
|---|---|---|
| Engine.Notify | packages/blaze/domrange.js:129-132 | each augmenter of the range is told once, in the order added |
| Engine.EmptyRange | packages/blaze/domrange.js:121-125 | an empty range stands for its placeholder alone, holds no other range, and its hooks are its own augmenters' calls |
| Engine.InsertMember | packages/blaze/domrange.js:34-44 | `_insert`: a host node is inserted (or moved) before `next`; a nested range is attached as `RangeAttached` says; the tree stays well formed |
| Engine.InsertMembers | packages/blaze/domrange.js:116-120 | the member loop of `attach` leaves every member inserted, in order, before the same `next`, with its nested ranges flagged and their hooks logged |
| Engine.AttachRange | packages/blaze/domrange.js:102-133 | a move is refused (`BadMove`, nothing changed) unless the range is attached under the same parent; otherwise its nodes are placed in order before `next` (a placeholder always by a plain insertion, even on a move); it and every nested range become attached under `p` with the placeholder iff empty; hooks fire, nested first, only when not moving |
| Engine.AttachLaysRun | packages/blaze/domrange.js:115-127 | a first attach of nodes not yet in the document makes the parent's children the old list with the range's nodes inserted before `next`, as one contiguous run in member order |
| Engine.MoveLaysRun | packages/blaze/domrange.js:109-120 | a move of a range whose nodes are children of `p` takes them out and lays them again as one run, in order, before `next` |
| Engine.DropMember | packages/blaze/domrange.js:46-53 | `_remove`: a host node leaves the tree; a nested range is detached as `RangeDetached` says |
| Engine.DropMembers | packages/blaze/domrange.js:190-193 | the member loop of `detach` removes every member's nodes and unflags every nested range, logging their hooks |
| Engine.DetachRange | packages/blaze/domrange.js:184-204 | a detached range is refused (`NotAttached`, nothing changed), and an attached empty range whose placeholder field is null throws (`NullNode`, the `removeChild(null)` of domrange.js:195, nothing changed); otherwise all its nodes leave the tree, it and every nested range become detached, and each augmenter is told with the old parent element |
| Engine.DetachLiftsRun | packages/blaze/domrange.js:184-198 | when the range's nodes form a run `a + nodes + b` of its parent's children, detaching succeeds exactly when the range is not empty with a null placeholder, and then leaves exactly `a + b` |
| Engine.MoveRestoresPlaceholder | packages/blaze/domrange.js:121-124 | moving an attached empty range whose placeholder is no longer in the document inserts the placeholder before `next` and records it, with no hooks |
| Engine.AttachChecked | packages/blaze/domrange.js:102-133 | after the move check, a `next` that is not a child of `p` is refused with `NotFound` (as `insertBefore` throws `NotFoundError`) and nothing changes; otherwise the attach goes ahead as `RangeAttached` says |
| Engine.AttachThenDetach | packages/blaze/domrange.js:102-204 | attaching a range of fresh nodes and then detaching it gives back the whole document; the range and its nested ranges end detached with no placeholder, every other record is unchanged, and the augmenters hear the attach and then the detach |
| HostTree.PlaceThenRemoveAllTree | packages/blaze/domrange.js:34-64 | inserting fresh nodes under a parent and removing them again restores every child list and every parent pointer |
| HostTree.RemoveSpec | packages/blaze/domrange.js:55-64 | removing a node takes it out of every child list and its parent map entry, and keeps the tree well formed |
| HostTree.InsertSpec | packages/blaze/domrange.js:66-88 | `insertBefore` moves the node out of its old list and places it before `next`, and keeps the tree well formed |
| HostTree.InsertThenRemove | packages/blaze/domrange.js:55-88 | inserting a node that had no place and removing it again gives back the tree |
| HostTree.NextSibling | packages/blaze/domrange.js:153 | a sibling found is a child of the node's own parent |
| HostTree.PlaceAllFresh | packages/blaze/domrange.js:118-124 | inserting fresh nodes one by one before `next` puts them there as one run, in order |
| HostTree.PlaceAllMove | packages/blaze/domrange.js:118-119 | moving children of `p` one by one before `next` puts them there as one run, in order, and removes them from their old places |
| HostTree.RemoveAllRun | packages/blaze/domrange.js:190-196 | removing a run of a child list node by node leaves what was around it |
| HostTree.PlaceThenRemoveAll | packages/blaze/domrange.js:118-196 | placing fresh nodes and removing them again leaves the parent's children as they were |
| HostTree.PlaceAllValid | packages/blaze/domrange.js:118-124 | placing nodes keeps the tree well formed and its containers |
| HostTree.RemoveAllValid | packages/blaze/domrange.js:190-196 | removing nodes keeps the tree well formed and the other nodes' parents |
| BackLinks.MarkAll | packages/blaze/domrange.js:142-145 | the `_memberIn`/`_memberOut` loop points every member's back-pointer at `v` and leaves every other pointer alone |
| BackLinks.OutUndoesIn | packages/blaze/domrange.js:282-297 | `_memberOut` after `_memberIn` is `_memberOut` alone |
| BackLinks.MemberInRelinks | packages/blaze/domrange.js:282-287 | `_memberIn` of one member points it, and only it, at the range |
| BackLinks.MemberOutRelinks | packages/blaze/domrange.js:289-297 | `_memberOut` of one member clears its pointer, and only its |
| BackLinks.MemberIn | packages/blaze/domrange.js:282-287 | `_memberIn(m)` points `m`'s back-pointer at the range (`parentRange` of a nested range, `$blaze_range` of an element; nothing for other nodes) and leaves every other pointer as it was |
| BackLinks.MemberOut | packages/blaze/domrange.js:289-297 | `_memberOut(m)` sets `m`'s back-pointer to null in the same way and leaves every other pointer as it was |
| BackLinks.OutThenIn | packages/blaze/domrange.js:142-145 | clearing the old members and then setting the new ones is `Relinked`: new members point at the range, dropped ones at none, everything else unchanged |
| BackLinks.Relink | packages/blaze/domrange.js:142-145 | the two loops of `setMembers` relink the members as `Relinked` says |
| BackLinks.RelinkedTwice | packages/blaze/domrange.js:142-145 | relinking the same lists twice is relinking once |
| BackLinks.RelinkedBack | packages/blaze/domrange.js:142-145 | after relinking, every back-pointer still names a range holding the member |
| BackLinks.WiderBack | packages/blaze/domrange.js:256-260 | giving a range a list that keeps all its members keeps every back-pointer sound |
| Editing.FirstNode | packages/blaze/domrange.js:162-171 | the only error is `NotAttached` |
| Editing.LastNode | packages/blaze/domrange.js:173-182 | the only error is `NotAttached` |
| Editing.EndsAttached | packages/blaze/domrange.js:162-182 | with the range and its nested ranges attached, `firstNode` and `lastNode` do not throw |
| Editing.FirstOfFlat | packages/blaze/domrange.js:162-171 | with placeholders in place, `firstNode` is the first of the range's nodes |
| Editing.LastOfFlat | packages/blaze/domrange.js:173-182 | with placeholders in place, `lastNode` is the last of the range's nodes |
| Editing.SettledEnds | packages/blaze/domrange.js:162-182 | on a settled attached range whose empty ranges hold placeholders, `firstNode` and `lastNode` are the first and the last of the range's nodes |
| Editing.AfterLast | packages/blaze/domrange.js:153 | `lastNode().nextSibling`: a detached range throws `NotAttached`; an attached empty range fails exactly when its placeholder is null (`NullNode`, the `TypeError`); any other answer is a sibling in the document |
| Editing.Reattach | packages/blaze/domrange.js:153-157 | the detach and re-attach of `setMembers`: old nodes out, new nodes in order before `next`, hooks for the detach and then the attach |
| Editing.SetMembers | packages/blaze/domrange.js:135-160 | back-pointers are relinked in every case; a detached range only takes the list; empty to empty while attached changes nothing; a null last node throws before the list changes; otherwise detach and attach again before the old last node's next sibling |
| Editing.Inserted | packages/blaze/domrange.js:216 | `splice(at, 0, m)`: `m` at `at`, the prefix kept, the rest moved up by one |
| Editing.Removed | packages/blaze/domrange.js:240 | `splice(at, 1)`: the prefix kept, the rest moved down by one |
| Editing.InsertedRanked | packages/blaze/domrange.js:229 | splicing in a member that does not hold the range keeps the range graph acyclic |
| Editing.RemovedSettled | packages/blaze/domrange.js:249-251 | splicing a member out of an attached range leaves it settled under the same parent |
| Editing.AddAttached | packages/blaze/domrange.js:220-231 | on an attached non-empty range the anchor is looked up (a throw changes nothing), then the member is spliced in and `_insert`ed before it |
| Editing.SpliceIn | packages/blaze/domrange.js:229-230 | the member list becomes the spliced list and the member is `_insert`ed before the anchor |
| Editing.MoveAnchor | packages/blaze/domrange.js:221-228 | with another member left after a splice, the anchor lookup of `addMember` does not throw |
| Editing.AddMember | packages/blaze/domrange.js:206-232 | an index outside `0..length` throws before any change; unless moving the back-pointer is set; detached: splice only; attached empty: `setMembers([m])`; otherwise splice and `_insert` at the anchor |
| Editing.RemoveMember | packages/blaze/domrange.js:234-254 | an index outside `0..length-1` throws before any change; a move only splices; otherwise the pointer is cleared, the last member goes through `setMembers([])`, any other is spliced out and `_remove`d when attached |
| Editing.SetMembersInPlace | packages/blaze/domrange.js:150-158 | when an attached range whose nodes form one run of its parent's children takes a new list whose nodes are new or its own, its parent's children change by exactly that run being replaced by the new list's nodes, which again form one run |
| Editing.AddMemberInPlace | packages/blaze/domrange.js:220-231 | adding a member whose nodes are new to an attached, non-empty range that forms one run succeeds and lays the member's nodes inside the run, after those of the members before `at` and before those from `at` on; nothing else among the parent's children moves |
| Editing.RemoveMemberInPlace | packages/blaze/domrange.js:246-251 | removing one of several members of an attached range that forms one run succeeds and takes exactly that member's nodes out of the run, which stays one run in place |
| Editing.FlatInserted | packages/blaze/domrange.js:229 | after the splice at `at` the range's nodes are those of the members before `at`, then the new member's, then those of the members from `at` on, each part unchanged |
| Editing.FlatRemoved | packages/blaze/domrange.js:249 | after the splice the range's nodes are those of the members before and after `at`, with the removed member's nodes taken out of the middle |
| Editing.AddAnchorAt | packages/blaze/domrange.js:221-228 | the anchor is the node after the range's last node at the end, and otherwise the first node of the member at `at` |
| Editing.AddAnchor | packages/blaze/domrange.js:221-227 | before a host-node member at `at`, the anchor is that node; only the end position can meet a null last node (`NullNode`); otherwise the only error is `NotAttached` |
| HostTree.InsertInRun | packages/blaze/domrange.js:230 | placing new nodes before the anchor inside a run of a parent's children leaves the run extended in place by exactly those nodes |
| HostTree.RemoveInRun | packages/blaze/domrange.js:251 | removing the middle part of a run of a parent's children leaves the outer parts as one run in place |
| HostTree.ReplaceRunAt | packages/blaze/domrange.js:153-157 | detaching a run and attaching a new list before the node that followed it puts the new list exactly where the run was |
| Editing.MoveMemberInPlace | packages/blaze/domrange.js:256-260 | moving a member between two different indices of an attached range whose nodes form one run of its parent's children lays the member's nodes between those of its new neighbours: the parent's children change by exactly that run being replaced by the range's new node list, which again forms one run |
| HostTree.MoveInRun | packages/blaze/domrange.js:118-119 | moving part `g` of a run `x + g + y` before the first node of `v`, where `x + y == u + v`, turns the run into `u + g + v` in place |
| HostTree.AppendInRun | packages/blaze/domrange.js:230 | appending new nodes before the node after a run extends the run in place |
| Editing.Moved | packages/blaze/domrange.js:256-260 | the member at `from` ends at `to` and the rest keep their order |
| Editing.MovedKeeps | packages/blaze/domrange.js:256-260 | a move keeps the multiset of members, and a move onto itself changes nothing |
| Editing.MovedBack | packages/blaze/domrange.js:256-260 | moving back restores the list |
| Editing.MoveApart | packages/blaze/domrange.js:256-260 | a move between two indices of an attached range moves the member's nodes before the anchor and tells no augmenter; of a detached range, only the list changes |
| Editing.MoveMember | packages/blaze/domrange.js:256-260 | corrected `moveMember`: both indices checked before any change, a self-move is a no-op, otherwise the list becomes `Moved` and back-pointers are untouched |
| Editing.GetMember | packages/blaze/domrange.js:262-267 | Ok exactly for `0 <= at < length`, and then a member of the range; otherwise `BadIndex` |
| Editing.GetAfterAdd | packages/blaze/domrange.js:262-267 | after `addMember(m, at)`, `getMember(at)` is `m`, and the others are found one index apart |
| Editing.GetAfterRemove | packages/blaze/domrange.js:262-267 | after `removeMember(at)`, the later members are found one index lower |
| Editing.GetAfterMove | packages/blaze/domrange.js:256-267 | after `moveMember(from, to)`, `getMember(to)` is what `getMember(from)` was |
| Editing.SetKeepsBack | packages/blaze/domrange.js:142-145 | a completed `setMembers` leaves every back-pointer naming a range that holds the member |
| Editing.AddKeepsBack | packages/blaze/domrange.js:206-232 | a completed `addMember`, moving or not, and one refused for its index, leave every back-pointer naming a range that holds the member |
| Editing.RemoveKeepsBack | packages/blaze/domrange.js:234-254 | `removeMember(at)` without moving leaves every back-pointer naming a range that holds the member, whatever it answers |
| Editing.MoveKeepsBack | packages/blaze/domrange.js:256-260 | the corrected `moveMember` keeps every back-pointer sound |
| Lifecycle.StopCalls | packages/blaze/domrange.js:271-272 | one call per callback, in order, each with the range as `this` |
| Lifecycle.NewRange | packages/blaze/domrange.js:10-28 | in any state: the new range holds the array, is detached with no placeholder, has no callbacks or augmenters, its members point at it, the graph stays acyclic, and sound back-pointers stay sound |
| Lifecycle.Stop | packages/blaze/domrange.js:269-274 | each callback is called once, in order, and the list is emptied; with an empty list nothing happens, so a second `stop` is a no-op |
| Lifecycle.StopCallsAppend | packages/blaze/domrange.js:269-280 | a callback added with `onstop` is called by the next `stop`, after the earlier ones |
| Lifecycle.OnStop | packages/blaze/domrange.js:276-280 | `cb` joins the end of the list |
| Lifecycle.AddAugmenter | packages/blaze/domrange.js:348-352 | `aug` joins the end of the augmenters |
| Lifecycle.CallsAppend | packages/blaze/domrange.js:348-352 | an added augmenter is told of later attaches and detaches, after the earlier ones |
| Queries.ContainsElement | packages/blaze/domrange.js:299-321 | the two walks compute `ElementIn`; a `true` answer is never the parent element itself |
| Queries.ContainsRange | packages/blaze/domrange.js:323-346 | the walk computes `RangeIn`; a range never contains itself |
| Queries.ReachesNested | packages/blaze/domrange.js:317-318 | the `parentRange` walk reaches `r` only from a range nested in `r` |
| Queries.NestedReaches | packages/blaze/domrange.js:342-343 | with exact back-pointers the walk reaches `r` from every range nested in `r` |
| Queries.ElementInSound | packages/blaze/domrange.js:310-320 | `containsElement` is true only for a strict descendant of the parent element whose top ancestor is an element among the range's nodes |
| Queries.ElementInComplete | packages/blaze/domrange.js:303-320 | when every `parentRange` and `$blaze_range` pointer names the range that holds the member, `containsElement` is true for every strict descendant of the parent element whose top ancestor is an element among the range's nodes |
| Ranges.Owner | packages/blaze/domrange.js:303-308 | every node a range stands for, other than a placeholder, is a member of the range or of a range nested in it |
| Queries.RangeInNested | packages/blaze/domrange.js:336-346 | under the same parent, `containsRange(q)` true implies `q` is another range nested in `r`, and the converse holds with exact back-pointers |
| DomRange.Dom.NewRange | packages/blaze/domrange.js:10-28 | in any good store: a new range with the next id, as `Created` says, keeping sound back-pointers sound |
| DomRange.Dom.Attach | packages/blaze/domrange.js:102-133 | the store changes as `AttachCalled` says and stays good: a `next` that is not a child of the parent element is refused with `NotFound` and nothing changes |
| DomRange.Dom.Detach | packages/blaze/domrange.js:184-204 | the store changes as `RangeDetached` says (including the `NullNode` throw of an empty range with no placeholder) and stays good |
| DomRange.Dom.SetMembers | packages/blaze/domrange.js:135-160 | as `Relinked` and `MembersSet` say; when it completes, sound back-pointers stay sound |
| DomRange.Dom.AddMember | packages/blaze/domrange.js:206-232 | as `MemberAddedAt` says; when it completes, sound back-pointers stay sound |
| DomRange.Dom.FirstNode | packages/blaze/domrange.js:162-171 | `firstNode()` on the store: fails only with `NotAttached`, and always on a detached range; an attached empty range answers its placeholder field; a settled range whose empty ranges hold placeholders answers the first of its nodes |
| DomRange.Dom.LastNode | packages/blaze/domrange.js:173-182 | `lastNode()` on the store: fails only with `NotAttached`, and always on a detached range; an attached empty range answers its placeholder field; a settled range whose empty ranges hold placeholders answers the last of its nodes |
| DomRange.Dom.GetMember | packages/blaze/domrange.js:262-267 | the member at `at` exactly when `0 <= at < length`, otherwise `BadIndex` |
| DomRange.Dom.RemoveMember | packages/blaze/domrange.js:234-254 | as `MemberRemovedAt` says; without a move, sound back-pointers stay sound |
| DomRange.Dom.MoveMember | packages/blaze/domrange.js:256-260 | corrected `moveMember`, as `MemberMovedAt` says; sound back-pointers stay sound |
| DomRange.Dom.Stop | packages/blaze/domrange.js:269-274 | callbacks logged in order, list emptied |
| DomRange.Dom.OnStop | packages/blaze/domrange.js:276-280 | callback appended |
| DomRange.Dom.AddDOMAugmenter | packages/blaze/domrange.js:348-352 | augmenter appended |
| DomRange.Dom.ContainsElement | packages/blaze/domrange.js:299-321 | answers `ElementIn` |
| DomRange.Dom.ContainsRange | packages/blaze/domrange.js:323-346 | answers `RangeIn` |
| Findings.MoveMemberAsWritten | packages/blaze/domrange.js:256-260 | `moveMember` as written: a bad `from` throws unchanged; otherwise `removeMember(from, true)` then `addMember(member, to, true)`, whatever that does |
| Findings.LostOnBadTarget | packages/blaze/domrange.js:256-260 | `moveMember(0, 2)` on `[a, b]` leaves `[b]`; corrected leaves `[a, b]` |
| Findings.LostOnSelfMove | packages/blaze/domrange.js:256-260 | `moveMember(0, 0)` on an attached one-node range throws `TypeError`, empties the members and leaves the node; corrected keeps the member |
| Findings.ReorderedOnSelfMove | packages/blaze/domrange.js:256-260 | `moveMember(1, 1)` where member 1 is a two-node range leaves the document `a, f, s` against members `a, s, f`; corrected leaves `a, s, f` |

## Left out

- The `_uihooks` overrides and browser workarounds in `_insertNodeWithHooks`, `_moveNodeWithHooks` and `_removeNodeWithHooks` (domrange.js:55-88) are foreign DOM calls: every insertion, move and removal is the plain structural one.
- `document.createTextNode("")` (domrange.js:122) is the node `Placeholder(r)`, which no other node shares.
- Engine.AttachRange: a `next` that is not a child of `p` makes the source's first `insertBefore` throw `NotFoundError`; `AttachRange` appends instead. `AttachChecked` (and `Dom.Attach`) refuse such a `next` up front with `NotFound`; inside the engine and the editing operations the anchor is always one of `p`'s children while the range's nodes form one run.
- HostTree.InsertSpec, Engine.AttachRange, Engine.AttachLaysRun: `Insert` places any node, while the DOM's `insertBefore` (domrange.js:73, 86) throws `HierarchyRequestError` when the inserted node is the parent itself or one of its ancestors, and inserts a document fragment's children in its place instead of the fragment node. `HostTree.Valid` has no acyclicity condition, so such a tree still counts as well formed. With `r = [p]`, `r.attach(p, null)` throws at its first `insertBefore` in the source, while `AttachRange` returns `Ok` and `AttachLaysRun` lays `[p]` under `p`; a `Fragment` member is laid as one node, where the DOM would lay its children.
- DomRange.Dom.Attach: before that throw the source has already reset `emptyRangePlaceholder` along the chain of first members, or given an empty range a new placeholder; the model refuses with nothing changed. A move whose nodes all lack a parent does not throw in the source (`_moveNodeWithHooks` returns early, domrange.js:77-78), whereas the model refuses it too.
- Engine.AttachRange: attaching an attached empty range again (a move, or a plain attach, domrange.js:121-124) creates a second placeholder in the source and leaves the first in the document; the model reuses `Placeholder(r)` and moves or re-inserts the one placeholder.
- Editing.MoveApart, Engine.MoveLaysRun, Editing.MoveMemberInPlace: these move an empty range's placeholder along with the other nodes, because the model has one placeholder, `Placeholder(q)`, per range. The source never moves a placeholder: `q.attach(p, next, true)` on an attached empty `q` makes a new text node and inserts it (domrange.js:119, 37, 121-124), and the old one stays where it was. With `r = [a, q, b]` attached under `p` and `q` empty with placeholder `P1` (children `a, P1, b`), `r.moveMember(1, 0)` leaves the children `P2, a, P1, b` in the source: `r`'s nodes `P2, a, b` no longer form one run, and `P1` stays in the document even after `r.detach()`. The model gives `Pq, a, b`. In the source a move lays the moved member's nodes as one run only when neither the member nor any range nested in it is empty; the model's move results match the source only for such members.
- DomRange.Dom.MoveMember, Editing.MoveMember: they make the move of `Editing.MoveApart` and share its placeholder gap: on `r = [a, q, b]` with `q` empty, `moveMember(1, 0)` leaves the old placeholder of `q` in the document in the source, while the model moves it before `a`.
- `Blaze._elementContains` (domrange.js:464-485) is `HostTree.ElementContains`, a strict-ancestor test over the parent map; `compareDocumentPosition` and `contains` are browser calls. `parentElement` in `containsElement` is read as `parentNode`.
- `DOMRange.prototype.$`, `EventAugmenter` and `DOMRange.forElement` (domrange.js:90-100, 354-457) are selector and event plumbing outside this model.
- The "called without `new`" shim, the "Expected array" argument checks and the frozen shared `_emptyArray` (domrange.js:3, 10-17, 136-138) are left out: member lists are always sequences.
- Editing.AddMember: the source splices into the member array in place, and that array is the frozen `_emptyArray` both for a range built without an array and for a range whose only member was removed (`removeMember` calls `setMembers(_emptyArray)`, domrange.js:245, 147, 156); a later `addMember` on such a range while it is detached (domrange.js:216) throws a `TypeError` in the source, whereas the model splices into a fresh sequence and returns `Ok`.
- Augmenters and stop callbacks are opaque ids whose calls are logged; they never edit ranges while they run.
- Queries.ContainsElement, Queries.ContainsRange, DomRange.Dom.ContainsElement, DomRange.Dom.ContainsRange: the back-pointers are required to be sound (`BackPointers`), and `Dom.Valid` does not include it. The constructor works in any state and keeps sound pointers sound; soundness is also proved kept by a completed `setMembers` or `addMember`, for `removeMember` without a move and for the corrected `moveMember`. `removeMember(at, true)` not followed by `addMember` leaves the member's pointer naming a range that no longer holds it, as in the source, so it is not kept there.
- Editing.MoveMember: modelled as corrected (indices checked first, a self-move left alone) and requires every attached empty range to hold its placeholder; the code as written is `Findings.MoveMemberAsWritten`.
- Engine.DetachRange, Engine.DropMember, Engine.DropMembers, DomRange.Dom.Detach, DomRange.Dom.SetMembers, DomRange.Dom.AddMember, DomRange.Dom.RemoveMember, DomRange.Dom.MoveMember, Editing.SetMembers, Editing.AddMember, Editing.RemoveMember, Editing.MoveMember: these require `Settled` of the range (for `DropMember`, of the nested range it detaches), that is, every range nested in an attached range is itself attached under the same parent element, every empty range nested in it holds a placeholder, and no node occurs twice in its flattened node list. The source does not check this. A nested range detached on its own (`outer = [x, inner]`, `inner.detach()`, then `outer.detach()`) makes the source remove `x` and then throw "Must be attached" on `inner`; a nested range emptied by a move (`outer = [x, inner]`, `inner = [y]`, `inner.removeMember(0, true)`, then `outer.detach()`) makes it remove `x` and then throw on `removeChild(null)`. The model does not describe these partial throws. The range itself being empty with a null placeholder is modelled: `detach` throws `NullNode` with nothing changed, and `setMembers` throws at its null last node.
- Engine.InsertMember, Engine.InsertMembers, Engine.AttachRange, Engine.AttachChecked, Editing.AddAttached, Editing.SpliceIn, Editing.AddMember, DomRange.Dom.Attach, DomRange.Dom.AddMember: on a move of a range attached under `p`, every range nested in it must be attached under `p` too. The source does not check this: with `outer = [x, inner]` attached under `p`, `inner.detach()` and then `outer.attach(p, next, true)` move `x` and then throw "Can only move an attached DOMRange" from `inner.attach` (domrange.js:110-112, 119), a partial move the model does not describe.
- Editing.SetMembersInPlace, Editing.AddMemberInPlace, Editing.RemoveMemberInPlace, Editing.MoveMemberInPlace: the run property of an edit is proved when the nodes it brings in are not in the document yet (or already belong to the range), and for the corrected `moveMember` within the range; an edit that moves nodes from elsewhere in the document, and removing the last member (which goes through `setMembers([])`, covered by `SetMembersInPlace`), are not restated.
- The ghost `level` map gives every range a rank below that of any range holding it, so the recursive functions over nested ranges terminate; new ranges and edits shift levels to keep it so.
- Editing.SetMembers, Editing.AddMember, DomRange.Dom.SetMembers, DomRange.Dom.AddMember, Editing.AddAttached, Editing.SpliceIn, Editing.InsertedRanked: these require that the new members neither are `r` nor hold `r` through nested ranges, so the member graph stays acyclic. The source checks nothing of the kind: on a detached range `r.setMembers([r])` (domrange.js:142-148) and `r.addMember(r, 0)` (domrange.js:206-216) complete and leave a cycle, after which `attach` (domrange.js:119, 37), `firstNode`/`lastNode` (domrange.js:170, 181) and `containsRange` (domrange.js:342-343) recurse without end; on an attached range the same calls overflow the stack partway through. The model does not describe these cyclic states.
- `moveMember` checks its target index against the list with the member already spliced out, so `to` must be below the original length; `Editing.MoveMember` keeps that bound but checks it before changing anything (Finding 1).

## Findings

| source | as written | input that shows it | evidently intended | confidence | as-written member | corrected member |
|---|---|---|---|---|---|---|
| packages/blaze/domrange.js:256-260 | `removeMember(from, true)` runs before `addMember` checks `to`, so a bad `to` throws after the member was spliced out | detached range `[a, b]`, `moveMember(0, 2)`: members become `[b]` | check both indices before changing anything; the range keeps `[a, b]` | not executed | Findings.LostOnBadTarget | Editing.MoveMember |
| packages/blaze/domrange.js:256-260, 217-219, 153, 177 | moving the only member of an attached range empties it without a placeholder, so `setMembers([m])` reads `lastNode().nextSibling` of null | attached range with the single text node 1, `moveMember(0, 0)`: `TypeError`, members `[]`, node 1 still in the document | a move onto itself changes nothing | not executed | Findings.LostOnSelfMove | Editing.MoveMember |
| packages/blaze/domrange.js:222-230, 256-260 | after splicing the last member out, the end-of-list anchor is the node after the new last node, which is the moved range's own first node; placing its nodes before that node reorders them | range `[a, q]` with `q = [s, f]` attached in order, `moveMember(1, 1)`: the parent holds `a, f, s` | the member's nodes stay in member order, `a, s, f` | not executed | Findings.ReorderedOnSelfMove | Editing.MoveMember |
