/** Blaze's `DOMRange` objects (packages/blaze/domrange.js) together with
    the host document they edit. A `Dom` holds one `Store`: the host tree,
    and for each field the source keeps on a range object a map from range
    id to that field's value, with the back-pointers the members carry in
    `links`. Each method of `Dom` runs the operation of the same name on
    the store and writes the new store back in place; what it promises is
    stated with the predicates of `Engine`, `Editing`, `Queries` and
    `Lifecycle`. */
module DomRange {
  import opened Util
  import opened HostTree
  import opened Ranges
  import opened Steps
  import opened Engine
  import opened BackLinks
  import opened Editing
  import opened Queries
  import opened Lifecycle

  /** The host tree and the fields of every range: its members, its
      `attached`/`parentElement`/`emptyRangePlaceholder` record, its stop
      callbacks and augmenters; the `parentRange` and `$blaze_range`
      back-pointers; the calls made so far into augmenters and stop
      callbacks; and the id the next range gets. */
  datatype Store = Store(tree: Tree, members: Members, status: map<RangeId, Status>, links: Links,
                         stopCallbacks: map<RangeId, seq<CallbackId>>, augmenters: map<RangeId, seq<AugmenterId>>,
                         hookLog: seq<HookCall>, stopLog: seq<StopCall>, nextId: RangeId)

  /** A well-formed tree, an acyclic range graph at levels `L` up to
      `top`, every field present for every range, and range ids below
      `nextId`. */
  ghost predicate Good(s: Store, L: Levels, top: nat) {
    Inv(s.tree, s.members, L, s.status, s.augmenters) && LevelsBelow(L, top) &&
    s.members.Keys <= s.stopCallbacks.Keys && (forall x | x in s.members :: x < s.nextId)
  }

  /** Creating a range with the next id keeps the store good. */
  lemma CreatedGood(s: Store, L: Levels, top: nat, ms: seq<Member>, M: Members, L': Levels, top': nat,
                    S: map<RangeId, Status>, C: map<RangeId, seq<CallbackId>>, A: map<RangeId, seq<AugmenterId>>, b: Links)
    requires Good(s, L, top) && Ranked(M, L') && LevelsBelow(L', top')
    requires Created(s.members, s.status, s.stopCallbacks, s.augmenters, s.links, M, S, C, A, b, s.nextId, ms)
    ensures Good(s.(members := M, status := S, stopCallbacks := C, augmenters := A, links := b, nextId := s.nextId + 1), L', top')
  {
  }

  class Dom {
    var st: Store
    /** A level per range that nested ranges sit strictly below. */
    ghost var level: Levels
    ghost var top: nat

    /** The store is good at the ghost levels. */
    ghost predicate Valid()
      reads this
    {
      Good(st, level, top)
    }

    /** An empty store over host tree `t`. */
    constructor (t: Tree)
      requires HostTree.Valid(t)
      ensures Valid() && st == Store(t, map[], map[], Links(map[], map[]), map[], map[], [], [], 0)
    {
      st := Store(t, map[], map[], Links(map[], map[]), map[], map[], [], [], 0);
      level, top := map[], 0;
    }

    /** `new DOMRange(ms)` (domrange.js:10-28): a new range holding `ms`. */
    method NewRange(ms: seq<Member>) returns (r: RangeId)
      requires Valid() && Below(st.members, level, ms, top + 1)
      modifies this
      ensures Valid() && r !in old(st).members
      ensures old(BackPointers(st.members, st.links)) ==> BackPointers(st.members, st.links)
      ensures st == old(st).(members := st.members, status := st.status, stopCallbacks := st.stopCallbacks,
                             augmenters := st.augmenters, links := st.links, nextId := st.nextId)
      ensures Created(old(st).members, old(st).status, old(st).stopCallbacks, old(st).augmenters, old(st).links,
                      st.members, st.status, st.stopCallbacks, st.augmenters, st.links, r, ms)
    {
      r := st.nextId;
      var M, S, C, A, b;
      ghost var L, t;
      M, L, t, S, C, A, b := Lifecycle.NewRange(st.members, level, top, st.status, st.stopCallbacks, st.augmenters,
                                                st.links, r, ms);
      CreatedGood(st, level, top, ms, M, L, t, S, C, A, b);
      st := st.(members := M, status := S, stopCallbacks := C, augmenters := A, links := b, nextId := r + 1);
      level, top := L, t;
    }

    /** `attach(p, next, move)` (domrange.js:102-133). */
    method Attach(r: RangeId, p: NodeId, next: Option<NodeId>, move: bool) returns (res: Result<()>)
      requires Valid() && r in st.members && p in st.tree.children
      requires move && st.status[r].attached && st.status[r].parentElement == Some(p)
        ==> AllUnder(st.status, Desc(st.members, level, r), p)
      modifies this
      ensures Valid() && level == old(level)
      ensures st == old(st).(tree := st.tree, status := st.status, hookLog := st.hookLog)
      ensures AttachCalled(st.members, level, st.augmenters, old(st).tree, old(st).status, old(st).hookLog,
                           r, p, next, move, res, st.tree, st.status, st.hookLog)
    {
      var t, S, H;
      res, t, S, H := AttachChecked(st.members, level, st.augmenters, st.tree, st.status, st.hookLog, r, p, next, move);
      st := st.(tree := t, status := S, hookLog := H);
    }

    /** `detach()` (domrange.js:184-204). */
    method Detach(r: RangeId) returns (res: Result<()>)
      requires Valid() && r in st.members && Settled(st.tree, st.members, level, st.status, r)
      modifies this
      ensures Valid() && level == old(level)
      ensures st == old(st).(tree := st.tree, status := st.status, hookLog := st.hookLog)
      ensures RangeDetached(st.members, level, st.augmenters, old(st).tree, old(st).status, old(st).hookLog,
                            r, res, st.tree, st.status, st.hookLog)
    {
      var t, S, H;
      res, t, S, H := DetachRange(st.members, level, st.augmenters, st.tree, st.status, st.hookLog, r);
      st := st.(tree := t, status := S, hookLog := H);
    }

    /** `setMembers(ms)` (domrange.js:135-160). */
    method SetMembers(r: RangeId, ms: seq<Member>) returns (res: Result<()>)
      requires Valid() && r in st.members && Settled(st.tree, st.members, level, st.status, r)
      requires Below(st.members, level, ms, top + 1) && r !in DescOf(st.members, level, ms, top + 1)
      modifies this
      ensures Valid() && st.members.Keys == old(st).members.Keys
      ensures st == old(st).(members := st.members, tree := st.tree, status := st.status, hookLog := st.hookLog,
                             links := st.links)
      ensures Relinked(old(st).links, st.links, old(st).members[r], ms, r)
      ensures MembersSet(old(st).members, old(level), st.members, level, st.augmenters, old(st).tree, old(st).status,
                         old(st).hookLog, r, ms, res, st.tree, st.status, st.hookLog)
      ensures old(BackPointers(st.members, st.links)) && res.Ok? ==> BackPointers(st.members, st.links)
    {
      var M, t, S, H, b;
      ghost var L, tp;
      res, M, L, tp, t, S, H, b := Editing.SetMembers(st.members, level, top, st.augmenters, st.tree, st.status,
                                                      st.hookLog, st.links, r, ms);
      if BackPointers(st.members, st.links) {
        SetKeepsBack(st.members, level, M, L, st.augmenters, st.tree, st.status, st.hookLog, st.links, r, ms, res, t, S, H, b);
      }
      st := st.(members := M, tree := t, status := S, hookLog := H, links := b);
      level, top := L, tp;
    }

    /** `firstNode()` (domrange.js:162-171). */
    function FirstNode(r: RangeId): (f: Result<Option<NodeId>>)
      reads this
      requires Valid() && r in st.members
      ensures f.Err? ==> f.error == NotAttached
      ensures !st.status[r].attached ==> f == Err(NotAttached)
      ensures st.status[r].attached && st.members[r] == [] ==> f == Ok(st.status[r].emptyRangePlaceholder)
      ensures st.status[r].attached && Settled(st.tree, st.members, level, st.status, r) && Placeholders(st.members, st.status) ==>
        f == Ok(Some(Flat(st.members, level, r)[0]))
    {
      SettledEnds(st.tree, st.members, level, st.status, r);
      Editing.FirstNode(st.members, level, st.status, r)
    }

    /** `lastNode()` (domrange.js:173-182). */
    function LastNode(r: RangeId): (f: Result<Option<NodeId>>)
      reads this
      requires Valid() && r in st.members
      ensures f.Err? ==> f.error == NotAttached
      ensures !st.status[r].attached ==> f == Err(NotAttached)
      ensures st.status[r].attached && st.members[r] == [] ==> f == Ok(st.status[r].emptyRangePlaceholder)
      ensures st.status[r].attached && Settled(st.tree, st.members, level, st.status, r) && Placeholders(st.members, st.status) ==>
        f == Ok(Some(Flat(st.members, level, r)[|Flat(st.members, level, r)| - 1]))
    {
      SettledEnds(st.tree, st.members, level, st.status, r);
      Editing.LastNode(st.members, level, st.status, r)
    }

    /** `addMember(m, at, move)` (domrange.js:206-232). */
    method AddMember(r: RangeId, m: Member, at: int, move: bool) returns (res: Result<()>)
      requires Valid() && r in st.members && Settled(st.tree, st.members, level, st.status, r)
      requires Below(st.members, level, [m], top + 1) && (m.Sub? ==> r !in Desc(st.members, level, m.range))
      requires m.Sub? && move && st.status[r].attached && st.status[m.range].attached &&
        st.status[m.range].parentElement == st.status[r].parentElement
        ==> AllUnder(st.status, Desc(st.members, level, m.range), st.status[r].parentElement.value)
      modifies this
      ensures Valid() && st.members.Keys == old(st).members.Keys
      ensures st == old(st).(members := st.members, tree := st.tree, status := st.status, hookLog := st.hookLog,
                             links := st.links)
      ensures MemberAddedAt(old(st).members, old(level), st.members, level, st.augmenters, old(st).tree,
                            old(st).status, old(st).hookLog, old(st).links, r, m, at, move,
                            res, st.tree, st.status, st.hookLog, st.links)
      ensures old(BackPointers(st.members, st.links)) && res.Ok? ==> BackPointers(st.members, st.links)
    {
      var M, t, S, H, b;
      ghost var L, tp;
      res, M, L, tp, t, S, H, b := Editing.AddMember(st.members, level, top, st.augmenters, st.tree, st.status,
                                                     st.hookLog, st.links, r, m, at, move);
      if BackPointers(st.members, st.links) {
        AddKeepsBack(st.members, level, M, L, st.augmenters, st.tree, st.status, st.hookLog, st.links, r, m, at, move,
                     res, t, S, H, b);
      }
      st := st.(members := M, tree := t, status := S, hookLog := H, links := b);
      level, top := L, tp;
    }

    /** `removeMember(at, move)` (domrange.js:234-254). */
    method RemoveMember(r: RangeId, at: int, move: bool) returns (res: Result<()>)
      requires Valid() && r in st.members && Settled(st.tree, st.members, level, st.status, r)
      modifies this
      ensures Valid() && st.members.Keys == old(st).members.Keys
      ensures st == old(st).(members := st.members, tree := st.tree, status := st.status, hookLog := st.hookLog,
                             links := st.links)
      ensures MemberRemovedAt(old(st).members, old(level), st.members, level, st.augmenters, old(st).tree,
                              old(st).status, old(st).hookLog, old(st).links, r, at, move,
                              res, st.tree, st.status, st.hookLog, st.links)
      ensures old(BackPointers(st.members, st.links)) && !move ==> BackPointers(st.members, st.links)
    {
      var M, t, S, H, b;
      ghost var L, tp;
      res, M, L, tp, t, S, H, b := Editing.RemoveMember(st.members, level, top, st.augmenters, st.tree, st.status,
                                                        st.hookLog, st.links, r, at, move);
      if BackPointers(st.members, st.links) && !move {
        RemoveKeepsBack(st.members, level, M, L, st.augmenters, st.tree, st.status, st.hookLog, st.links, r, at,
                        res, t, S, H, b);
      }
      st := st.(members := M, tree := t, status := S, hookLog := H, links := b);
      level, top := L, tp;
    }

    /** `moveMember(from, to)` (domrange.js:256-260), with the indices
        checked first and a move onto itself left alone. */
    method MoveMember(r: RangeId, from: int, to: int) returns (res: Result<()>)
      requires Valid() && r in st.members && Settled(st.tree, st.members, level, st.status, r)
      requires Placeholders(st.members, st.status)
      modifies this
      ensures Valid() && st.members.Keys == old(st).members.Keys
      ensures st == old(st).(members := st.members, tree := st.tree, status := st.status, hookLog := st.hookLog)
      ensures MemberMovedAt(old(st).members, old(level), st.members, level, st.augmenters, old(st).tree,
                            old(st).status, old(st).hookLog, r, from, to, res, st.tree, st.status, st.hookLog)
      ensures old(BackPointers(st.members, st.links)) ==> BackPointers(st.members, st.links)
    {
      var M, t, S, H, b;
      ghost var L, tp;
      res, M, L, tp, t, S, H, b := Editing.MoveMember(st.members, level, top, st.augmenters, st.tree, st.status,
                                                      st.hookLog, st.links, r, from, to);
      if BackPointers(st.members, st.links) {
        MoveKeepsBack(st.members, level, M, L, st.augmenters, st.tree, st.status, st.hookLog, st.links, r, from, to,
                      res, t, S, H);
      }
      st := st.(members := M, tree := t, status := S, hookLog := H);
      level, top := L, tp;
    }

    /** `getMember(at)` (domrange.js:262-267). */
    function GetMember(r: RangeId, at: int): (g: Result<Member>)
      reads this
      requires Valid() && r in st.members
      ensures g.Ok? <==> 0 <= at < |st.members[r]|
      ensures g.Ok? ==> g.value == st.members[r][at]
      ensures g.Err? ==> g.error == BadIndex
    {
      Editing.GetMember(st.members, r, at)
    }

    /** `stop()` (domrange.js:269-274). */
    method Stop(r: RangeId)
      requires Valid() && r in st.members
      modifies this
      ensures Valid() && level == old(level) && top == old(top)
      ensures st == old(st).(stopCallbacks := old(st).stopCallbacks[r := []],
                             stopLog := old(st).stopLog + StopCalls(old(st).stopCallbacks[r], r))
    {
      var C, log := Lifecycle.Stop(st.stopCallbacks, st.stopLog, r);
      st := st.(stopCallbacks := C, stopLog := log);
    }

    /** `onstop(cb)` (domrange.js:276-280). */
    method OnStop(r: RangeId, cb: CallbackId)
      requires Valid() && r in st.members
      modifies this
      ensures Valid() && level == old(level) && top == old(top)
      ensures st == old(st).(stopCallbacks := old(st).stopCallbacks[r := old(st).stopCallbacks[r] + [cb]])
    {
      var C := Lifecycle.OnStop(st.stopCallbacks, r, cb);
      st := st.(stopCallbacks := C);
    }

    /** `addDOMAugmenter(aug)` (domrange.js:348-352). */
    method AddDOMAugmenter(r: RangeId, aug: AugmenterId)
      requires Valid() && r in st.members
      modifies this
      ensures Valid() && level == old(level) && top == old(top)
      ensures st == old(st).(augmenters := old(st).augmenters[r := old(st).augmenters[r] + [aug]])
    {
      var A := AddAugmenter(st.augmenters, r, aug);
      st := st.(augmenters := A);
    }

    /** `containsElement(elem)` (domrange.js:299-321). */
    method ContainsElement(r: RangeId, elem: NodeId) returns (res: Result<bool>)
      requires Valid() && r in st.members && BackPointers(st.members, st.links)
      requires st.status[r].attached ==> st.status[r].parentElement.Some?
      ensures res == ElementIn(st.members, level, top, st.status, st.tree, st.links, r, elem)
    {
      res := Queries.ContainsElement(st.members, level, top, st.status, st.tree, st.links, r, elem);
    }

    /** `containsRange(q)` (domrange.js:323-346). */
    method ContainsRange(r: RangeId, q: RangeId) returns (res: Result<bool>)
      requires Valid() && r in st.members && q in st.members && BackPointers(st.members, st.links)
      requires st.status[r].attached ==> st.status[r].parentElement.Some?
      requires st.status[q].attached ==> st.status[q].parentElement.Some?
      ensures res == RangeIn(st.members, level, top, st.status, st.tree, st.links, r, q)
    {
      res := Queries.ContainsRange(st.members, level, top, st.status, st.tree, st.links, r, q);
    }
  }
}
