/** The edits of a range's member array (packages/blaze/domrange.js:135-267)
    and the node lookups they rely on, on the state they touch: the member
    lists, the host tree, the records, the augmenter log and the
    back-pointers. */
module Editing {
  import opened Util
  import opened Seqs
  import opened HostTree
  import opened Ranges
  import opened Steps
  import opened Engine
  import opened BackLinks

  /** `firstNode` (domrange.js:162-171): refused on a detached range; the
      placeholder field of an empty range; otherwise the first node of the
      first member. */
  function FirstNode(M: Members, ghost L: Levels, S: map<RangeId, Status>, r: RangeId): (f: Result<Option<NodeId>>)
    requires Ranked(M, L) && r in M && M.Keys <= S.Keys
    ensures f.Err? ==> f.error == NotAttached
    decreases L[r]
  {
    if !S[r].attached then Err(NotAttached)
    else if M[r] == [] then Ok(S[r].emptyRangePlaceholder)
    else match M[r][0]
      case Node(n) => Ok(Some(n))
      case Sub(q) => assert M[r][0] in M[r]; FirstNode(M, L, S, q)
  }

  /** `lastNode` (domrange.js:173-182), the mirror image of `firstNode`. */
  function LastNode(M: Members, ghost L: Levels, S: map<RangeId, Status>, r: RangeId): (f: Result<Option<NodeId>>)
    requires Ranked(M, L) && r in M && M.Keys <= S.Keys
    ensures f.Err? ==> f.error == NotAttached
    decreases L[r]
  {
    if !S[r].attached then Err(NotAttached)
    else if M[r] == [] then Ok(S[r].emptyRangePlaceholder)
    else match M[r][|M[r]| - 1]
      case Node(n) => Ok(Some(n))
      case Sub(q) => assert M[r][|M[r]| - 1] in M[r]; LastNode(M, L, S, q)
  }

  /** `lastNode().nextSibling` (domrange.js:153, 224): the node after the
      range, or the `TypeError` of a null last node. */
  function AfterLast(M: Members, ghost L: Levels, S: map<RangeId, Status>, t: Tree, r: RangeId): (a: Result<Option<NodeId>>)
    requires Ranked(M, L) && r in M && M.Keys <= S.Keys
    ensures !S[r].attached ==> a == Err(NotAttached)
    ensures a.Err? ==> a.error == NotAttached || a.error == NullNode
    ensures S[r].attached && M[r] == [] ==> (a.Ok? <==> S[r].emptyRangePlaceholder.Some?)
    ensures a.Ok? && a.value.Some? ==> exists n :: n in t.parentNode && a.value.value in Kids(t, t.parentNode[n])
  {
    match LastNode(M, L, S, r)
    case Err(e) => Err(e)
    case Ok(None) => Err(NullNode)
    case Ok(Some(n)) => Ok(NextSibling(t, n))
  }

  /** When a range and every range nested in it are attached, `firstNode`
      and `lastNode` do not throw. */
  lemma {:induction false} EndsAttached(M: Members, L: Levels, S: map<RangeId, Status>, r: RangeId, p: NodeId)
    requires Ranked(M, L) && r in M && M.Keys <= S.Keys && AllUnder(S, Desc(M, L, r), p)
    ensures FirstNode(M, L, S, r).Ok? && LastNode(M, L, S, r).Ok?
    decreases L[r]
  {
    assert r in Desc(M, L, r);
    var ms := M[r];
    if ms != [] {
      var k := |ms| - 1;
      assert ms[0] in ms && ms[k] in ms;
      if ms[0].Sub? {
        SubInDescOf(M, L, ms, L[r], ms[0].range);
        Within(M, L, r, ms[0].range);
        EndsAttached(M, L, S, ms[0].range, p);
      }
      if ms[k].Sub? {
        SubInDescOf(M, L, ms, L[r], ms[k].range);
        Within(M, L, r, ms[k].range);
        EndsAttached(M, L, S, ms[k].range, p);
      }
    }
  }

  /** With every attached empty range holding its placeholder, `firstNode`
      of an attached range is the first of the nodes the range stands for. */
  lemma {:induction false} FirstOfFlat(M: Members, L: Levels, S: map<RangeId, Status>, r: RangeId, p: NodeId)
    requires Ranked(M, L) && r in M && M.Keys <= S.Keys
    requires AllUnder(S, Desc(M, L, r), p) && Placeholders(M, S)
    ensures FirstNode(M, L, S, r) == Ok(Some(Flat(M, L, r)[0]))
    decreases L[r]
  {
    assert r in Desc(M, L, r);
    var ms := M[r];
    if ms != [] {
      assert ms[0] in ms;
      if ms[0].Sub? {
        SubInDescOf(M, L, ms, L[r], ms[0].range);
        Within(M, L, r, ms[0].range);
        FirstOfFlat(M, L, S, ms[0].range, p);
      }
    }
  }

  /** Likewise `lastNode` is the last of the range's nodes. */
  lemma {:induction false} LastOfFlat(M: Members, L: Levels, S: map<RangeId, Status>, r: RangeId, p: NodeId)
    requires Ranked(M, L) && r in M && M.Keys <= S.Keys
    requires AllUnder(S, Desc(M, L, r), p) && Placeholders(M, S)
    ensures LastNode(M, L, S, r) == Ok(Some(Flat(M, L, r)[|Flat(M, L, r)| - 1]))
    decreases L[r]
  {
    assert r in Desc(M, L, r);
    var ms := M[r];
    if ms != [] {
      var k := |ms| - 1;
      assert ms[k] in ms;
      if ms[k].Sub? {
        SubInDescOf(M, L, ms, L[r], ms[k].range);
        Within(M, L, r, ms[k].range);
        LastOfFlat(M, L, S, ms[k].range, p);
      }
      LastOfFlatOf(M, L, ms, L[r]);
    }
  }

  /** A settled attached range whose empty ranges hold their placeholders
      starts and ends with the first and the last of its nodes. */
  lemma {:induction false} SettledEnds(t: Tree, M: Members, L: Levels, S: map<RangeId, Status>, r: RangeId)
    requires Ranked(M, L) && r in M && M.Keys <= S.Keys
    ensures S[r].attached && Settled(t, M, L, S, r) && Placeholders(M, S) ==>
      FirstNode(M, L, S, r) == Ok(Some(Flat(M, L, r)[0])) &&
      LastNode(M, L, S, r) == Ok(Some(Flat(M, L, r)[|Flat(M, L, r)| - 1]))
  {
    if S[r].attached && Settled(t, M, L, S, r) && Placeholders(M, S) {
      FirstOfFlat(M, L, S, r, S[r].parentElement.value);
      LastOfFlat(M, L, S, r, S[r].parentElement.value);
    }
  }

  /** The last node of a member list is the last node of its last member. */
  lemma {:induction false} LastOfFlatOf(M: Members, L: Levels, ms: seq<Member>, bound: nat)
    requires Ranked(M, L) && Below(M, L, ms, bound) && ms != []
    ensures var f := FlatOf(M, L, ms, bound); var m := ms[|ms| - 1];
      m.Node? ==> f[|f| - 1] == m.node
    ensures var f := FlatOf(M, L, ms, bound); var m := ms[|ms| - 1];
      m.Sub? ==> m.range in M && f[|f| - 1] == Flat(M, L, m.range)[|Flat(M, L, m.range)| - 1]
  {
    var k := |ms| - 1;
    assert ms[k] in ms;
    assert ms == ms[..k] + [ms[k]];
    BelowAppend(M, L, ms[..k], [ms[k]], bound);
    FlatAppend(M, L, ms[..k], [ms[k]], bound);
    assert [ms[k]][1..] == [];
  }

  /** What detaching range `r` from under `p` and attaching it again,
      with member lists `M'` in place of `M`, before `next`, does: the old
      nodes leave the tree and the new ones are placed in order before
      `next`; the old ranges become detached and then the new ones attached;
      the augmenters hear the detach of the old ranges, then the attach of
      the new ones. */
  ghost predicate Reattached(M: Members, L: Levels, M': Members, L': Levels, A: map<RangeId, seq<AugmenterId>>,
                             t0: Tree, S0: map<RangeId, Status>, H0: seq<HookCall>, r: RangeId, p: NodeId, next: Option<NodeId>,
                             t: Tree, S: map<RangeId, Status>, H: seq<HookCall>)
    requires Ranked(M, L) && Ranked(M', L') && r in M && r in M' && M.Keys <= A.Keys && M'.Keys <= A.Keys
  {
    t == PlaceAll(RemoveAll(t0, Flat(M, L, r)), Flat(M', L', r), p, next, false) &&
    S == Reflag(Unflag(S0, M, Desc(M, L, r)), M', Desc(M', L', r), p) &&
    H == H0 + Hooks(M, L, A, r, p, OnDetach) + Hooks(M', L', A, r, p, OnAttach)
  }

  /** The detach and attach again of `setMembers` (domrange.js:155-157). */
  method Reattach(M: Members, ghost L: Levels, M': Members, ghost L': Levels, A: map<RangeId, seq<AugmenterId>>,
                  t0: Tree, S0: map<RangeId, Status>, H0: seq<HookCall>, r: RangeId, p: NodeId, next: Option<NodeId>)
    returns (t: Tree, S: map<RangeId, Status>, H: seq<HookCall>)
    requires Inv(t0, M, L, S0, A) && Ranked(M', L') && M'.Keys == M.Keys && r in M
    requires Settled(t0, M, L, S0, r) && S0[r].attached && S0[r].parentElement == Some(p) && !NullHolder(M, S0, r)
    ensures Inv(t, M', L', S, A)
    ensures Reattached(M, L, M', L', A, t0, S0, H0, r, p, next, t, S, H)
  {
    var detached, attached;
    detached, t, S, H := DetachRange(M, L, A, t0, S0, H0, r);
    RemoveAllValid(t0, Flat(M, L, r));
    attached, t, S, H := AttachRange(M', L', A, t, S, H, r, p, next, false);
  }

  /** What `setMembers(ms)` does to the members, tree, records and log
      of range `r`: a detached range, or an attached one going from empty
      to empty, just takes the new list (the latter has it already);
      otherwise a null last node throws before anything changes, and else
      the range takes `ms` and is detached and attached again before the
      node that followed its last node. */
  ghost predicate MembersSet(M: Members, L: Levels, M': Members, L': Levels, A: map<RangeId, seq<AugmenterId>>,
                             t0: Tree, S0: map<RangeId, Status>, H0: seq<HookCall>, r: RangeId, ms: seq<Member>,
                             res: Result<()>, t: Tree, S: map<RangeId, Status>, H: seq<HookCall>)
    requires Ranked(M, L) && Ranked(M', L') && r in M && r in M' && M.Keys <= A.Keys && M'.Keys <= A.Keys && M.Keys <= S0.Keys
    requires S0[r].attached ==> S0[r].parentElement.Some?
  {
    (res.Err? <==> S0[r].attached && (ms != [] || M[r] != []) && LastNode(M, L, S0, r) == Ok(None)) &&
    (res.Err? ==> res.error == NullNode && M' == M && t == t0 && S == S0 && H == H0) &&
    (res.Ok? ==> M' == M[r := ms]) &&
    (res.Ok? && !(S0[r].attached && (ms != [] || M[r] != [])) ==> t == t0 && S == S0 && H == H0) &&
    (res.Ok? && S0[r].attached && (ms != [] || M[r] != []) ==> (AfterLast(M, L, S0, t0, r).Ok? &&
      Reattached(M, L, M', L', A, t0, S0, H0, r, S0[r].parentElement.value, AfterLast(M, L, S0, t0, r).value, t, S, H)))
  }

  /** `setMembers` (domrange.js:135-160). The old members' back-pointers
      are cleared and the new members' set to `r`. A detached range just
      takes the new list; an attached range going from empty to empty is
      left alone. Otherwise the range is detached (taking the old nodes out
      of the tree) and attached again with the new list, before the node
      that followed its old last node; that last node being null is a
      `TypeError`, thrown before the list changes. The levels move the
      ranges outside the new members above them, so the range graph stays
      acyclic. */
  method SetMembers(M: Members, ghost L: Levels, ghost top: nat, A: map<RangeId, seq<AugmenterId>>,
                    t0: Tree, S0: map<RangeId, Status>, H0: seq<HookCall>, b0: Links, r: RangeId, ms: seq<Member>)
    returns (res: Result<()>, M': Members, ghost L': Levels, ghost top': nat,
             t: Tree, S: map<RangeId, Status>, H: seq<HookCall>, b: Links)
    requires Inv(t0, M, L, S0, A) && r in M && LevelsBelow(L, top)
    requires Below(M, L, ms, top + 1) && r !in DescOf(M, L, ms, top + 1)
    requires Settled(t0, M, L, S0, r)
    ensures Relinked(b0, b, M[r], ms, r)
    ensures Inv(t, M', L', S, A) && LevelsBelow(L', top') && M'.Keys == M.Keys
    ensures MembersSet(M, L, M', L', A, t0, S0, H0, r, ms, res, t, S, H)
  {
    b := Relink(b0, M[r], ms, r);
    RankedShift(M, L, top, r, ms);
    L', top' := Shift(L, DescOf(M, L, ms, top + 1), top + 1), 2 * top + 1;
    M', t, S, H := M, t0, S0, H0;
    if !S0[r].attached {
      M' := M[r := ms];
      return Ok(()), M', L', top', t, S, H, b;
    }
    if ms == [] && M[r] == [] {
      assert M[r := ms] == M;
      return Ok(()), M', L', top', t, S, H, b;
    }
    var p := S0[r].parentElement.value;
    EndsAttached(M, L, S0, r, p);
    var next := AfterLast(M, L, S0, t0, r);
    if next.Err? {
      return Err(next.error), M, L, top, t, S, H, b;
    }
    assert !NullHolder(M, S0, r);
    M' := M[r := ms];
    t, S, H := Reattach(M, L, M', L', A, t0, S0, H0, r, p, next.value);
    res := Ok(());
  }

  /** `setMembers` on an attached range whose nodes form one run of its
      parent's children puts the new members' nodes in that run's place,
      when they are not in the document already (or were the range's own). */
  lemma {:induction false} SetMembersInPlace(M: Members, L: Levels, M': Members, L': Levels, A: map<RangeId, seq<AugmenterId>>,
                                             t0: Tree, S0: map<RangeId, Status>, H0: seq<HookCall>, r: RangeId, ms: seq<Member>,
                                             res: Result<()>, t: Tree, S: map<RangeId, Status>, H: seq<HookCall>, p: NodeId)
    requires Inv(t0, M, L, S0, A) && Ranked(M', L') && r in M && M'.Keys == M.Keys && Placeholders(M, S0)
    requires Settled(t0, M, L, S0, r) && S0[r].attached && S0[r].parentElement == Some(p)
    requires MembersSet(M, L, M', L', A, t0, S0, H0, r, ms, res, t, S, H) && res.Ok?
    requires Run(Kids(t0, p), Flat(M, L, r))
    requires NoDup(Flat(M', L', r)) && forall n | n in Flat(M', L', r) :: n !in t0.parentNode || n in Flat(M, L, r)
    ensures Kids(t, p) == Replace(Kids(t0, p), Flat(M, L, r), Flat(M', L', r))
    ensures Run(Kids(t, p), Flat(M', L', r))
  {
    if M[r] == [] && ms == [] {
      assert t == t0 && Flat(M', L', r) == Flat(M, L, r);
      KeepRun(t0, p, Flat(M, L, r));
    } else {
      AfterLastOfFlat(M, L, S0, t0, r, p);
      assert t == PlaceAll(RemoveAll(t0, Flat(M, L, r)), Flat(M', L', r), p, NextSibling(t0, Flat(M, L, r)[|Flat(M, L, r)| - 1]), false);
      ReplaceRunAt(t0, p, Flat(M, L, r), Flat(M', L', r), t);
    }
  }

  /** `members.splice(at, 0, m)`: `m` lands at index `at`, the members
      before it stay, the ones from `at` on move up by one. */
  function Inserted(ms: seq<Member>, at: nat, m: Member): (ms': seq<Member>)
    requires at <= |ms|
    ensures |ms'| == |ms| + 1 && ms'[at] == m && ms'[..at] == ms[..at] && ms'[at + 1..] == ms[at..]
  {
    ms[..at] + [m] + ms[at..]
  }

  /** `members.splice(at, 1)`: the member at `at` goes, the ones after it
      move down by one. */
  function Removed(ms: seq<Member>, at: nat): (ms': seq<Member>)
    requires at < |ms|
    ensures |ms'| == |ms| - 1 && ms'[..at] == ms[..at] && ms'[at..] == ms[at + 1..]
  {
    ms[..at] + ms[at + 1..]
  }

  /** A range is not nested in its own members. */
  lemma {:induction false} NotInOwnMembers(M: Members, L: Levels, r: RangeId, bound: nat)
    requires Ranked(M, L) && r in M && Below(M, L, M[r], bound)
    ensures r !in DescOf(M, L, M[r], bound)
  {
    forall y | y in DescOf(M, L, M[r], bound) ensures y in M {
      DescOfLevel(M, L, M[r], bound, y);
    }
    AgreeOf(M, L, M, L, A0(M), M[r], bound, L[r], Placeholder(0), OnAttach);
    if r in DescOf(M, L, M[r], L[r]) {
      DescOfLevel(M, L, M[r], L[r], r);
    }
  }

  /** The ranges of a one-member list are those of the member. */
  lemma {:induction false} DescOfOne(M: Members, L: Levels, m: Member, bound: nat)
    requires Ranked(M, L) && Below(M, L, [m], bound)
    ensures m.Node? ==> DescOf(M, L, [m], bound) == {}
    ensures m.Sub? ==> m.range in M && DescOf(M, L, [m], bound) == Desc(M, L, m.range)
  {
    assert [m][0] == m && [m][1..] == [];
  }

  /** Splicing a member into range `r` that does not hold `r` keeps the
      range graph acyclic once the levels are shifted. */
  lemma {:induction false} InsertedRanked(M: Members, L: Levels, top: nat, r: RangeId, at: nat, m: Member)
    requires Ranked(M, L) && r in M && LevelsBelow(L, top) && at <= |M[r]|
    requires Below(M, L, [m], top + 1) && (m.Sub? ==> r !in Desc(M, L, m.range))
    ensures Below(M, L, Inserted(M[r], at, m), top + 1) && r !in DescOf(M, L, Inserted(M[r], at, m), top + 1)
  {
    var ms := M[r];
    assert ms == ms[..at] + ms[at..];
    assert Below(M, L, ms, top + 1) by {
      forall q | Sub(q) in ms ensures q in M && q in L && L[q] < top + 1 {
      }
    }
    BelowAppend(M, L, ms[..at], ms[at..], top + 1);
    var ins := Inserted(ms, at, m);
    assert Below(M, L, ins, top + 1) by {
      forall q | Sub(q) in ins ensures q in M && q in L && L[q] < top + 1 {
        assert Sub(q) in ms[..at] || Sub(q) == m || Sub(q) in ms[at..];
      }
    }
    BelowAppend(M, L, ms[..at] + [m], ms[at..], top + 1);
    DescAppend(M, L, ms[..at] + [m], ms[at..], top + 1);
    DescAppend(M, L, ms[..at], [m], top + 1);
    DescAppend(M, L, ms[..at], ms[at..], top + 1);
    NotInOwnMembers(M, L, r, top + 1);
    DescOfOne(M, L, m, top + 1);
  }

  /** Where `addMember` puts a member at index `at` of an attached,
      non-empty range (domrange.js:221-228): before the first node of the
      member now at `at`, or, at the end, before the node that follows the
      range's last node. */
  function AddAnchor(M: Members, ghost L: Levels, S: map<RangeId, Status>, t: Tree, r: RangeId, at: nat): (a: Result<Option<NodeId>>)
    requires Ranked(M, L) && r in M && M.Keys <= S.Keys && at <= |M[r]|
    ensures a.Err? ==> a.error == NotAttached || (a.error == NullNode && at == |M[r]|)
    ensures at < |M[r]| && M[r][at].Node? ==> a == Ok(Some(M[r][at].node))
    ensures at == |M[r]| && !S[r].attached ==> a == Err(NotAttached)
  {
    if at == |M[r]| then AfterLast(M, L, S, t, r)
    else match M[r][at]
      case Node(n) => Ok(Some(n))
      case Sub(q) => assert M[r][at] in M[r]; FirstNode(M, L, S, q)
  }

  /** A range that does not hold `r` means the same once `r` has other
      members and the levels have changed. */
  lemma {:induction false} AgreeOutside(M: Members, L: Levels, M': Members, L': Levels, A: map<RangeId, seq<AugmenterId>>,
                                        q: RangeId, r: RangeId, p: NodeId, kind: HookKind)
    requires Ranked(M, L) && Ranked(M', L') && q in M && r !in Desc(M, L, q)
    requires M.Keys <= A.Keys && M'.Keys == M.Keys && forall x | x in M && x != r :: M'[x] == M[x]
    ensures Flat(M', L', q) == Flat(M, L, q) && Desc(M', L', q) == Desc(M, L, q)
    ensures Hooks(M', L', A, q, p, kind) == Hooks(M, L, A, q, p, kind)
  {
    forall y | y in Desc(M, L, q) ensures y in M && y in M' && M'[y] == M[y] {
      DescLevel(M, L, q, y);
    }
    Agree(M, L, M', L', A, q, p, kind);
  }

  /** What `addMember(m, at)` does to an attached, non-empty range `r`:
      when looking up the anchor throws, nothing changes; otherwise `m` is
      spliced in at `at` and `_insert`ed before the anchor. */
  ghost predicate MemberAdded(M: Members, L: Levels, M': Members, L': Levels, A: map<RangeId, seq<AugmenterId>>,
                              t0: Tree, S0: map<RangeId, Status>, H0: seq<HookCall>, r: RangeId, m: Member, at: nat, move: bool,
                              res: Result<()>, t: Tree, S: map<RangeId, Status>, H: seq<HookCall>)
    requires Ranked(M, L) && Ranked(M', L') && r in M && at <= |M[r]| && M.Keys <= A.Keys && M'.Keys == M.Keys && M.Keys <= S0.Keys
    requires S0[r].attached && S0[r].parentElement.Some?
  {
    var next := AddAnchor(M, L, S0, t0, r, at);
    (next.Err? ==> res.Err? && res.error == next.error && M' == M && t == t0 && S == S0 && H == H0) &&
    (next.Ok? ==> (M' == M[r := Inserted(M[r], at, m)] &&
      MemberInserted(M', L', A, t0, S0, H0, m, S0[r].parentElement.value, next.value, move, res, t, S, H)))
  }

  /** `addMember` on an attached, non-empty range (domrange.js:220-231):
      the anchor is looked up (which may throw), the member is spliced in
      and `_insert`ed before the anchor. */
  method AddAttached(M: Members, ghost L: Levels, ghost top: nat, A: map<RangeId, seq<AugmenterId>>,
                     t0: Tree, S0: map<RangeId, Status>, H0: seq<HookCall>, r: RangeId, m: Member, at: nat, move: bool)
    returns (res: Result<()>, M': Members, ghost L': Levels, ghost top': nat, t: Tree, S: map<RangeId, Status>, H: seq<HookCall>)
    requires Inv(t0, M, L, S0, A) && r in M && LevelsBelow(L, top) && at <= |M[r]|
    requires Below(M, L, [m], top + 1) && (m.Sub? ==> r !in Desc(M, L, m.range))
    requires Settled(t0, M, L, S0, r) && S0[r].attached && M[r] != []
    requires m.Sub? && move && S0[m.range].attached && S0[m.range].parentElement == S0[r].parentElement ==>
      AllUnder(S0, Desc(M, L, m.range), S0[r].parentElement.value)
    ensures Inv(t, M', L', S, A) && LevelsBelow(L', top') && M'.Keys == M.Keys
    ensures MemberAdded(M, L, M', L', A, t0, S0, H0, r, m, at, move, res, t, S, H)
  {
    var p := S0[r].parentElement.value;
    var next := AddAnchor(M, L, S0, t0, r, at);
    if next.Err? {
      return Err(next.error), M, L, top, t0, S0, H0;
    }
    res, M', L', top', t, S, H := SpliceIn(M, L, top, A, t0, S0, H0, r, m, at, p, next.value, move);
  }

  /** After splicing `m` into range `r`, with shifted levels, the range
      graph is acyclic and a nested range `m` means what it meant. */
  lemma {:induction false} SpliceLevels(M: Members, L: Levels, top: nat, A: map<RangeId, seq<AugmenterId>>,
                                        r: RangeId, at: nat, m: Member, p: NodeId)
    requires Ranked(M, L) && r in M && LevelsBelow(L, top) && at <= |M[r]| && M.Keys <= A.Keys
    requires Below(M, L, [m], top + 1) && (m.Sub? ==> r !in Desc(M, L, m.range))
    ensures Below(M, L, Inserted(M[r], at, m), top + 1)
    ensures var ms := Inserted(M[r], at, m);
      var M', L' := M[r := ms], Shift(L, DescOf(M, L, ms, top + 1), top + 1);
      Ranked(M', L') && LevelsBelow(L', 2 * top + 1) &&
      (m.Sub? ==> Desc(M', L', m.range) == Desc(M, L, m.range))
  {
    var ms := Inserted(M[r], at, m);
    InsertedRanked(M, L, top, r, at, m);
    RankedShift(M, L, top, r, ms);
    var M', L' := M[r := ms], Shift(L, DescOf(M, L, ms, top + 1), top + 1);
    if m.Sub? {
      AgreeOutside(M, L, M', L', A, m.range, r, p, OnAttach);
    }
  }

  /** The splice and `_insert` of `addMember` (domrange.js:229-230). */
  method SpliceIn(M: Members, ghost L: Levels, ghost top: nat, A: map<RangeId, seq<AugmenterId>>,
                  t0: Tree, S0: map<RangeId, Status>, H0: seq<HookCall>, r: RangeId, m: Member, at: nat,
                  p: NodeId, next: Option<NodeId>, move: bool)
    returns (res: Result<()>, M': Members, ghost L': Levels, ghost top': nat, t: Tree, S: map<RangeId, Status>, H: seq<HookCall>)
    requires Inv(t0, M, L, S0, A) && r in M && LevelsBelow(L, top) && at <= |M[r]| && p in t0.children
    requires Below(M, L, [m], top + 1) && (m.Sub? ==> r !in Desc(M, L, m.range))
    requires m.Sub? && move && S0[m.range].attached && S0[m.range].parentElement == Some(p) ==>
      AllUnder(S0, Desc(M, L, m.range), p)
    ensures Inv(t, M', L', S, A) && LevelsBelow(L', top') && M' == M[r := Inserted(M[r], at, m)]
    ensures MemberInserted(M', L', A, t0, S0, H0, m, p, next, move, res, t, S, H)
  {
    var ms := Inserted(M[r], at, m);
    SpliceLevels(M, L, top, A, r, at, m, p);
    M', L', top' := M[r := ms], Shift(L, DescOf(M, L, ms, top + 1), top + 1), 2 * top + 1;
    res, t, S, H := InsertMember(M', L', A, t0, S0, H0, m, p, next, move);
  }

  /** What `addMember(m, at, move)` on range `r` does. An index outside
      `0..|members|` throws before anything changes. Unless moving, the
      member's back-pointer is set to `r`. A detached range just splices the
      member in; an attached empty range takes it through `setMembers([m])`,
      which sets the back-pointer even when moving; an attached range with
      members splices it in and `_insert`s it before the anchor. */
  ghost predicate MemberAddedAt(M: Members, L: Levels, M': Members, L': Levels, A: map<RangeId, seq<AugmenterId>>,
                                t0: Tree, S0: map<RangeId, Status>, H0: seq<HookCall>, b0: Links,
                                r: RangeId, m: Member, at: int, move: bool,
                                res: Result<()>, t: Tree, S: map<RangeId, Status>, H: seq<HookCall>, b: Links)
    requires Inv(t0, M, L, S0, A) && Ranked(M', L') && M'.Keys == M.Keys && r in M && Settled(t0, M, L, S0, r)
  {
    (res == Err(BadIndex) <==> !(0 <= at <= |M[r]|)) &&
    (!(0 <= at <= |M[r]|) ==> M' == M && t == t0 && S == S0 && H == H0 && b == b0) &&
    (0 <= at <= |M[r]| && move && !(S0[r].attached && M[r] == []) ==> b == b0) &&
    (0 <= at <= |M[r]| && !(move && !(S0[r].attached && M[r] == [])) ==> Relinked(b0, b, [], [m], r)) &&
    (0 <= at <= |M[r]| && !S0[r].attached ==>
      res.Ok? && M' == M[r := Inserted(M[r], at, m)] && t == t0 && S == S0 && H == H0) &&
    (0 <= at <= |M[r]| && S0[r].attached && M[r] == [] ==>
      MembersSet(M, L, M', L', A, t0, S0, H0, r, [m], res, t, S, H)) &&
    (0 <= at <= |M[r]| && S0[r].attached && M[r] != [] ==>
      MemberAdded(M, L, M', L', A, t0, S0, H0, r, m, at, move, res, t, S, H))
  }

  /** `addMember` (domrange.js:206-232), as `MemberAddedAt` says. */
  method AddMember(M: Members, ghost L: Levels, ghost top: nat, A: map<RangeId, seq<AugmenterId>>,
                   t0: Tree, S0: map<RangeId, Status>, H0: seq<HookCall>, b0: Links,
                   r: RangeId, m: Member, at: int, move: bool)
    returns (res: Result<()>, M': Members, ghost L': Levels, ghost top': nat,
             t: Tree, S: map<RangeId, Status>, H: seq<HookCall>, b: Links)
    requires Inv(t0, M, L, S0, A) && r in M && LevelsBelow(L, top)
    requires Below(M, L, [m], top + 1) && (m.Sub? ==> r !in Desc(M, L, m.range))
    requires Settled(t0, M, L, S0, r)
    requires m.Sub? && move && S0[r].attached && S0[m.range].attached && S0[m.range].parentElement == S0[r].parentElement ==>
      AllUnder(S0, Desc(M, L, m.range), S0[r].parentElement.value)
    ensures Inv(t, M', L', S, A) && LevelsBelow(L', top') && M'.Keys == M.Keys
    ensures MemberAddedAt(M, L, M', L', A, t0, S0, H0, b0, r, m, at, move, res, t, S, H, b)
  {
    if !(0 <= at <= |M[r]|) {
      return Err(BadIndex), M, L, top, t0, S0, H0, b0;
    }
    b := b0;
    if !move {
      b := MemberIn(b0, r, m);
      MemberInRelinks(b0, r, m);
    }
    if !S0[r].attached {
      var ms := Inserted(M[r], at, m);
      SpliceLevels(M, L, top, A, r, at, m, Placeholder(r));
      M', L', top' := M[r := ms], Shift(L, DescOf(M, L, ms, top + 1), top + 1), 2 * top + 1;
      return Ok(()), M', L', top', t0, S0, H0, b;
    }
    if M[r] == [] {
      ghost var b1 := b;
      DescOfOne(M, L, m, top + 1);
      res, M', L', top', t, S, H, b := SetMembers(M, L, top, A, t0, S0, H0, b, r, [m]);
      if !move {
        RelinkedTwice(b0, b1, b, [], [m], r);
      }
      return;
    }
    res, M', L', top', t, S, H := AddAttached(M, L, top, A, t0, S0, H0, r, m, at, move);
  }

  /** The nodes of a range before and after `m` is spliced in at `at`:
      the member's nodes come between those of the members before and
      after it, which keep what they stand for. */
  lemma {:induction false} FlatInserted(M: Members, L: Levels, M': Members, L': Levels, r: RangeId, at: nat, m: Member)
    requires Ranked(M, L) && Ranked(M', L') && r in M && at <= |M[r]|
    requires M' == M[r := Inserted(M[r], at, m)]
    ensures var ms := M[r];
      Below(M, L, ms[..at], L[r]) && Below(M, L, ms[at..], L[r]) && Below(M', L', [m], L'[r]) &&
      Flat(M', L', r) == FlatOf(M, L, ms[..at], L[r]) + FlatOf(M', L', [m], L'[r]) + FlatOf(M, L, ms[at..], L[r]) &&
      (ms != [] ==> Flat(M, L, r) == FlatOf(M, L, ms[..at], L[r]) + FlatOf(M, L, ms[at..], L[r]))
  {
    var ms := M[r];
    var pre, post := ms[..at], ms[at..];
    var ms' := pre + [m] + post;
    assert M'[r] == ms';
    assert ms == pre + post;
    assert Below(M, L, ms, L[r]);
    BelowAppend(M, L, pre, post, L[r]);
    assert Below(M', L', ms', L'[r]) by {
      forall q | Sub(q) in ms' ensures q in M' && q in L' && L'[q] < L'[r] {
        assert Sub(q) in M'[r];
      }
    }
    BelowAppend(M', L', pre + [m], post, L'[r]);
    BelowAppend(M', L', pre, [m], L'[r]);
    FlatAppend(M', L', pre + [m], post, L'[r]);
    FlatAppend(M', L', pre, [m], L'[r]);
    if ms != [] {
      FlatAppend(M, L, pre, post, L[r]);
    }
    KeptOf(M, L, M', L', r, pre);
    KeptOf(M, L, M', L', r, post);
  }

  /** Members of `r` that lie below it stand for the same nodes after only
      `r`'s own member list has changed. */
  lemma {:induction false} KeptOf(M: Members, L: Levels, M': Members, L': Levels, r: RangeId, part: seq<Member>)
    requires Ranked(M, L) && Ranked(M', L') && r in M && M'.Keys == M.Keys
    requires forall x | x in M && x != r :: M'[x] == M[x]
    requires Below(M, L, part, L[r]) && Below(M', L', part, L'[r])
    ensures FlatOf(M', L', part, L'[r]) == FlatOf(M, L, part, L[r])
  {
    forall y | y in DescOf(M', L', part, L'[r]) ensures y in M' && y in M && M[y] == M'[y] {
      DescOfLevel(M', L', part, L'[r], y);
    }
    AgreeOf(M', L', M, L, A0(M'), part, L'[r], L[r], Placeholder(0), OnAttach);
  }

  /** Where `addMember` attaches a member of an attached, non-empty range
      whose ranges are all attached under `p`: before the first node of the
      members from `at` on, or, at the end, before the node that follows the
      range's last node. */
  lemma {:induction false} AddAnchorAt(M: Members, L: Levels, S: map<RangeId, Status>, t: Tree, r: RangeId, at: nat, p: NodeId)
    requires Ranked(M, L) && r in M && M.Keys <= S.Keys && at <= |M[r]| && M[r] != []
    requires AllUnder(S, Desc(M, L, r), p) && Placeholders(M, S)
    ensures Below(M, L, M[r][at..], L[r])
    ensures at == |M[r]| ==> AddAnchor(M, L, S, t, r, at) == Ok(NextSibling(t, Flat(M, L, r)[|Flat(M, L, r)| - 1]))
    ensures at < |M[r]| ==> AddAnchor(M, L, S, t, r, at) == Ok(Some(FlatOf(M, L, M[r][at..], L[r])[0]))
  {
    var ms := M[r];
    assert Below(M, L, ms, L[r]);
    BelowAppend(M, L, ms[..at], ms[at..], L[r]);
    assert ms == ms[..at] + ms[at..];
    if at == |ms| {
      AfterLastOfFlat(M, L, S, t, r, p);
    } else {
      var post := ms[at..];
      assert post[0] == ms[at] && ms[at] in ms;
      if ms[at].Sub? {
        var q := ms[at].range;
        assert r in Desc(M, L, r);
        SubInDescOf(M, L, ms, L[r], q);
        Within(M, L, r, q);
        FirstOfFlat(M, L, S, q, p);
      }
    }
  }

  /** Attaching a member takes its nodes, in order, into the tree before
      `next`; so does moving one, when it is a host node or a range
      attached under `p`. */
  lemma {:induction false} InsertedNodes(M: Members, L: Levels, A: map<RangeId, seq<AugmenterId>>,
                                         t0: Tree, S0: map<RangeId, Status>, H0: seq<HookCall>,
                                         m: Member, p: NodeId, next: Option<NodeId>, move: bool, bound: nat,
                                         res: Result<()>, t: Tree, S: map<RangeId, Status>, H: seq<HookCall>)
    requires Ranked(M, L) && M.Keys <= A.Keys && M.Keys <= S0.Keys && Below(M, L, [m], bound)
    requires move && m.Sub? ==> S0[m.range].attached && S0[m.range].parentElement == Some(p)
    requires MemberInserted(M, L, A, t0, S0, H0, m, p, next, move, res, t, S, H)
    ensures res.Ok? && t == PlaceAll(t0, FlatOf(M, L, [m], bound), p, next, move)
  {
    assert [m][1..] == [];
    match m
    case Node(n) =>
      assert FlatOf(M, L, [m], bound) == [n];
    case Sub(q) =>
      assert FlatOf(M, L, [m], bound) == Flat(M, L, q);
  }

  /** Attaching the nodes of a member appended to a range whose nodes form
      one run of `p`'s children, before the node after that run, lays them
      out at the end of the run. */
  lemma {:induction false} AppendedInRun(M: Members, L: Levels, M': Members, L': Levels,
                                         t0: Tree, r: RangeId, m: Member, p: NodeId, next: Option<NodeId>, t: Tree)
    requires Ranked(M, L) && Ranked(M', L') && r in M && M[r] != []
    requires Valid(t0) && p in t0.children && Run(Kids(t0, p), Flat(M, L, r))
    requires M' == M[r := Inserted(M[r], |M[r]|, m)]
    requires next == NextSibling(t0, Flat(M, L, r)[|Flat(M, L, r)| - 1])
    requires NoDup(Flat(M', L', r)) && forall n | n in Flat(M', L', r) :: n !in t0.parentNode || n in Flat(M, L, r)
    requires Below(M', L', [m], L'[r]) && t == PlaceAll(t0, FlatOf(M', L', [m], L'[r]), p, next, false)
    ensures Kids(t, p) == Replace(Kids(t0, p), Flat(M, L, r), Flat(M', L', r))
    ensures Run(Kids(t, p), Flat(M', L', r))
  {
    var f := Flat(M, L, r);
    assert next == NextSibling(t0, f[|f| - 1]);
    FlatAppended(M, L, M', L', r, m);
    AppendInRun(t0, p, f, FlatOf(M', L', [m], L'[r]), next, t);
  }

  /** The nodes of a range after `m` is appended: the member's nodes
      follow the range's own. */
  lemma {:induction false} FlatAppended(M: Members, L: Levels, M': Members, L': Levels, r: RangeId, m: Member)
    requires Ranked(M, L) && Ranked(M', L') && r in M && M[r] != []
    requires M' == M[r := Inserted(M[r], |M[r]|, m)]
    ensures Below(M', L', [m], L'[r]) && Flat(M', L', r) == Flat(M, L, r) + FlatOf(M', L', [m], L'[r])
  {
    var ms := M[r];
    FlatInserted(M, L, M', L', r, |ms|, m);
    assert ms[|ms|..] == [] && ms[..|ms|] == ms;
    assert Flat(M', L', r) == Flat(M, L, r) + FlatOf(M', L', [m], L'[r]) + [];
  }

  /** Attaching the nodes of a member spliced in at `at`, before the first
      node of the members from `at` on, in a range whose nodes form one run
      of `p`'s children, lays them out between those of its neighbours. */
  lemma {:induction false} SplicedInRun(M: Members, L: Levels, M': Members, L': Levels,
                                        t0: Tree, r: RangeId, m: Member, at: nat, p: NodeId, next: Option<NodeId>, t: Tree)
    requires Ranked(M, L) && Ranked(M', L') && r in M && at < |M[r]|
    requires Valid(t0) && p in t0.children && Run(Kids(t0, p), Flat(M, L, r))
    requires M' == M[r := Inserted(M[r], at, m)]
    requires Below(M, L, M[r][at..], L[r]) && next == Some(FlatOf(M, L, M[r][at..], L[r])[0])
    requires NoDup(Flat(M', L', r)) && forall n | n in Flat(M', L', r) :: n !in t0.parentNode || n in Flat(M, L, r)
    requires Below(M', L', [m], L'[r]) && t == PlaceAll(t0, FlatOf(M', L', [m], L'[r]), p, next, false)
    ensures Kids(t, p) == Replace(Kids(t0, p), Flat(M, L, r), Flat(M', L', r))
    ensures Run(Kids(t, p), Flat(M', L', r))
  {
    var ms := M[r];
    FlatInserted(M, L, M', L', r, at, m);
    var x, g, y := FlatOf(M, L, ms[..at], L[r]), FlatOf(M', L', [m], L'[r]), FlatOf(M, L, ms[at..], L[r]);
    assert ms[at..] != [];
    InsertInRun(t0, p, x, g, y, next, t);
  }

  /** `addMember` (not a move) on an attached, non-empty range whose nodes
      form one run of its parent's children, of a member whose nodes are not
      in the document yet, lays the new member's nodes out inside that run,
      between those of its neighbours: the range stays one run, in place. */
  lemma {:induction false} AddMemberInPlace(M: Members, L: Levels, M': Members, L': Levels, A: map<RangeId, seq<AugmenterId>>,
                                            t0: Tree, S0: map<RangeId, Status>, H0: seq<HookCall>, b0: Links,
                                            r: RangeId, m: Member, at: nat, p: NodeId,
                                            res: Result<()>, t: Tree, S: map<RangeId, Status>, H: seq<HookCall>, b: Links)
    requires Inv(t0, M, L, S0, A) && Ranked(M', L') && r in M && M'.Keys == M.Keys && Placeholders(M, S0)
    requires Settled(t0, M, L, S0, r) && S0[r].attached && S0[r].parentElement == Some(p) && M[r] != []
    requires MemberAddedAt(M, L, M', L', A, t0, S0, H0, b0, r, m, at, false, res, t, S, H, b) && at <= |M[r]|
    requires Run(Kids(t0, p), Flat(M, L, r))
    requires NoDup(Flat(M', L', r)) && forall n | n in Flat(M', L', r) :: n !in t0.parentNode || n in Flat(M, L, r)
    ensures res.Ok? && Kids(t, p) == Replace(Kids(t0, p), Flat(M, L, r), Flat(M', L', r))
    ensures Run(Kids(t, p), Flat(M', L', r))
  {
    AddAnchorAt(M, L, S0, t0, r, at, p);
    var next := AddAnchor(M, L, S0, t0, r, at).value;
    assert M' == M[r := Inserted(M[r], at, m)];
    assert MemberInserted(M', L', A, t0, S0, H0, m, p, next, false, res, t, S, H);
    FlatInserted(M, L, M', L', r, at, m);
    InsertedNodes(M', L', A, t0, S0, H0, m, p, next, false, L'[r], res, t, S, H);
    assert t == PlaceAll(t0, FlatOf(M', L', [m], L'[r]), p, next, false);
    if at == |M[r]| {
      AppendedInRun(M, L, M', L', t0, r, m, p, next, t);
    } else {
      SplicedInRun(M, L, M', L', t0, r, m, at, p, next, t);
    }
  }

  /** A range nested directly in a settled range is settled too, under the
      same parent element. */
  lemma {:induction false} MemberSettled(M: Members, L: Levels, S: map<RangeId, Status>, r: RangeId, i: nat, p: NodeId)
    requires Ranked(M, L) && r in M && i < |M[r]| && M[r][i].Sub?
    requires AllUnder(S, Desc(M, L, r), p) && NoDup(Flat(M, L, r))
    ensures var q := M[r][i].range;
      q in M && q in S && S[q].attached && S[q].parentElement == Some(p) &&
      AllUnder(S, Desc(M, L, q), p) && NoDup(Flat(M, L, q)) && r !in Desc(M, L, q)
  {
    var q := M[r][i].range;
    MemberOfRange(M, L, r, i);
    NestedApart(M, L, r, i);
    if r in Desc(M, L, q) {
      DescLevel(M, L, q, r);
    }
  }

  /** A range nested directly in `r` holds its placeholder when empty, as
      do the ranges nested in it, when every range nested in `r` does. */
  lemma {:induction false} MemberPlaced(M: Members, L: Levels, S: map<RangeId, Status>, r: RangeId, i: nat)
    requires Ranked(M, L) && r in M && i < |M[r]| && M[r][i].Sub?
    requires AllPlaced(M, S, DescOf(M, L, M[r], L[r]))
    ensures M[r][i].range in M && AllPlaced(M, S, Desc(M, L, M[r][i].range))
  {
    var q := M[r][i].range;
    MemberOfRange(M, L, r, i);
    if r in Desc(M, L, q) {
      DescLevel(M, L, q, r);
    }
  }

  /** Taking members out of a range keeps the range graph acyclic under
      the same levels. */
  lemma {:induction false} RemovedRanked(M: Members, L: Levels, r: RangeId, at: nat)
    requires Ranked(M, L) && r in M && at < |M[r]|
    ensures Ranked(M[r := Removed(M[r], at)], L)
  {
    var ms := M[r];
    forall q | Sub(q) in Removed(ms, at) ensures Sub(q) in ms {
      assert Sub(q) in ms[..at] || Sub(q) in ms[at + 1..];
    }
  }

  /** What `removeMember(at, move)` on range `r` does. An index outside
      `0..|members|-1` throws before anything changes. A move only splices
      the member out. Otherwise the member's back-pointer is cleared; the
      only member goes through `setMembers([])`; any other is spliced out
      and, when the range is attached, `_remove`d. */
  ghost predicate MemberRemovedAt(M: Members, L: Levels, M': Members, L': Levels, A: map<RangeId, seq<AugmenterId>>,
                                  t0: Tree, S0: map<RangeId, Status>, H0: seq<HookCall>, b0: Links,
                                  r: RangeId, at: int, move: bool,
                                  res: Result<()>, t: Tree, S: map<RangeId, Status>, H: seq<HookCall>, b: Links)
    requires Inv(t0, M, L, S0, A) && Ranked(M', L') && M'.Keys == M.Keys && r in M && Settled(t0, M, L, S0, r)
  {
    (res == Err(BadIndex) <==> !(0 <= at < |M[r]|)) &&
    (!(0 <= at < |M[r]|) ==> M' == M && t == t0 && S == S0 && H == H0 && b == b0) &&
    (0 <= at < |M[r]| && move ==>
      res.Ok? && M' == M[r := Removed(M[r], at)] && L' == L && t == t0 && S == S0 && H == H0 && b == b0) &&
    (0 <= at < |M[r]| && !move ==> Relinked(b0, b, [M[r][at]], [], r)) &&
    (0 <= at < |M[r]| && !move && |M[r]| == 1 ==>
      MembersSet(M, L, M', L', A, t0, S0, H0, r, [], res, t, S, H)) &&
    (0 <= at < |M[r]| && !move && |M[r]| > 1 ==> M' == M[r := Removed(M[r], at)]) &&
    (0 <= at < |M[r]| && !move && |M[r]| > 1 && !S0[r].attached ==> res.Ok? && t == t0 && S == S0 && H == H0) &&
    (0 <= at < |M[r]| && !move && |M[r]| > 1 && S0[r].attached ==>
      res.Ok? && MemberDropped(M, L, A, t0, S0, H0, M[r][at], res, t, S, H))
  }

  /** `removeMember` (domrange.js:234-254), as `MemberRemovedAt` says. */
  method RemoveMember(M: Members, ghost L: Levels, ghost top: nat, A: map<RangeId, seq<AugmenterId>>,
                      t0: Tree, S0: map<RangeId, Status>, H0: seq<HookCall>, b0: Links,
                      r: RangeId, at: int, move: bool)
    returns (res: Result<()>, M': Members, ghost L': Levels, ghost top': nat,
             t: Tree, S: map<RangeId, Status>, H: seq<HookCall>, b: Links)
    requires Inv(t0, M, L, S0, A) && r in M && LevelsBelow(L, top)
    requires Settled(t0, M, L, S0, r)
    ensures Inv(t, M', L', S, A) && LevelsBelow(L', top') && M'.Keys == M.Keys
    ensures MemberRemovedAt(M, L, M', L', A, t0, S0, H0, b0, r, at, move, res, t, S, H, b)
  {
    if !(0 <= at < |M[r]|) {
      return Err(BadIndex), M, L, top, t0, S0, H0, b0;
    }
    var ms := M[r];
    RemovedRanked(M, L, r, at);
    if move {
      return Ok(()), M[r := Removed(ms, at)], L, top, t0, S0, H0, b0;
    }
    var gone := ms[at];
    b := MemberOut(b0, gone);
    MemberOutRelinks(b0, r, gone);
    if |ms| == 1 {
      ghost var b1 := b;
      assert ms == [gone];
      res, M', L', top', t, S, H, b := SetMembers(M, L, top, A, t0, S0, H0, b, r, []);
      RelinkedTwice(b0, b1, b, [gone], [], r);
      return;
    }
    M', L', top' := M[r := Removed(ms, at)], L, top;
    t, S, H := t0, S0, H0;
    res := Ok(());
    if S0[r].attached {
      if gone.Sub? {
        MemberSettled(M, L, S0, r, at, S0[r].parentElement.value);
        MemberPlaced(M, L, S0, r, at);
      } else {
        MemberOfRange(M, L, r, at);
      }
      res, t, S, H := DropMember(M, L, A, t0, S0, H0, gone);
    }
  }

  /** The member list `moveMember(from, to)` is meant to leave: the member
      at `from` ends up at `to` and the others keep their order. */
  function Moved(ms: seq<Member>, from: nat, to: nat): (ms': seq<Member>)
    requires from < |ms| && to < |ms|
    ensures |ms'| == |ms| && ms'[to] == ms[from]
    ensures Removed(ms', to) == Removed(ms, from)
  {
    var rest := Removed(ms, from);
    var ms' := Inserted(rest, to, ms[from]);
    assert Removed(ms', to) == rest[..to] + rest[to..] == rest;
    ms'
  }

  /** A move keeps the members, and a move onto itself changes nothing. */
  lemma {:induction false} MovedKeeps(ms: seq<Member>, from: nat, to: nat)
    requires from < |ms| && to < |ms|
    ensures multiset(Moved(ms, from, to)) == multiset(ms)
    ensures from == to ==> Moved(ms, from, to) == ms
  {
    var rest := Removed(ms, from);
    var ms' := Moved(ms, from, to);
    assert ms == ms[..from] + [ms[from]] + ms[from + 1..];
    assert ms' == rest[..to] + [ms[from]] + rest[to..];
    assert rest == rest[..to] + rest[to..];
    assert multiset(ms) == multiset(rest) + multiset{ms[from]};
  }

  /** Moving a member back where it came from restores the list. */
  lemma {:induction false} MovedBack(ms: seq<Member>, from: nat, to: nat)
    requires from < |ms| && to < |ms|
    ensures Moved(Moved(ms, from, to), to, from) == ms
  {
    var ms' := Moved(ms, from, to);
    var rest := Removed(ms, from);
    var back := Inserted(rest, from, ms[from]);
    assert Moved(ms', to, from) == back;
    assert back == back[..from] + [back[from]] + back[from + 1..];
    assert ms == ms[..from] + [ms[from]] + ms[from + 1..];
  }

  /** Splicing a member out of a settled range leaves it settled. */
  lemma {:induction false} RemovedSettled(t: Tree, M: Members, L: Levels, S: map<RangeId, Status>, r: RangeId, at: nat)
    requires Ranked(M, L) && r in M && M.Keys <= S.Keys && at < |M[r]|
    requires Settled(t, M, L, S, r)
    ensures Ranked(M[r := Removed(M[r], at)], L)
    ensures Settled(t, M[r := Removed(M[r], at)], L, S, r)
  {
    var ms := M[r];
    var M1 := M[r := Removed(ms, at)];
    RemovedRanked(M, L, r, at);
    if S[r].attached {
      var p := S[r].parentElement.value;
      var pre, mid, post := ms[..at], [ms[at]], ms[at + 1..];
      assert ms == pre + mid + post;
      assert Removed(ms, at) == pre + post;
      assert Below(M, L, ms, L[r]);
      AppendOf(M, L, A0(M), pre + mid, post, L[r], p, OnAttach);
      AppendOf(M, L, A0(M), pre, mid, L[r], p, OnAttach);
      assert Below(M, L, pre + post, L[r]) by {
        forall q | Sub(q) in pre + post ensures q in M && q in L && L[q] < L[r] {
          assert Sub(q) in pre || Sub(q) in post;
        }
      }
      AppendOf(M, L, A0(M), pre, post, L[r], p, OnAttach);
      forall y | y in DescOf(M, L, pre + post, L[r]) ensures y in M && y in M1 && M1[y] == M[y] {
        DescOfLevel(M, L, pre + post, L[r], y);
      }
      AgreeOf(M, L, M1, L, A0(M), pre + post, L[r], L[r], p, OnAttach);
      assert Desc(M1, L, r) <= Desc(M, L, r);
      if pre + post != [] {
        NoDupDrop(FlatOf(M, L, pre, L[r]), FlatOf(M, L, mid, L[r]), FlatOf(M, L, post, L[r]));
      }
    }
  }

  /** The node `setMembers` attaches the new members before is the one
      after the last of the range's nodes. */
  lemma {:induction false} AfterLastOfFlat(M: Members, L: Levels, S: map<RangeId, Status>, t: Tree, r: RangeId, p: NodeId)
    requires Ranked(M, L) && r in M && M.Keys <= S.Keys
    requires AllUnder(S, Desc(M, L, r), p) && Placeholders(M, S)
    ensures AfterLast(M, L, S, t, r) == Ok(NextSibling(t, Flat(M, L, r)[|Flat(M, L, r)| - 1]))
  {
    LastOfFlat(M, L, S, r, p);
  }

  /** The nodes of a range with more than one member, before and after
      the member at `at` is spliced out: the member's own nodes drop out
      of the middle and the rest keep their order. */
  lemma {:induction false} FlatRemoved(M: Members, L: Levels, M': Members, L': Levels, r: RangeId, at: nat)
    requires Ranked(M, L) && Ranked(M', L') && r in M && at < |M[r]| && |M[r]| > 1
    requires M' == M[r := Removed(M[r], at)]
    ensures var ms := M[r];
      Below(M, L, ms[..at], L[r]) && Below(M, L, [ms[at]], L[r]) && Below(M, L, ms[at + 1..], L[r]) &&
      Flat(M, L, r) == FlatOf(M, L, ms[..at], L[r]) + FlatOf(M, L, [ms[at]], L[r]) + FlatOf(M, L, ms[at + 1..], L[r]) &&
      Flat(M', L', r) == FlatOf(M, L, ms[..at], L[r]) + FlatOf(M, L, ms[at + 1..], L[r])
  {
    var ms := M[r];
    var pre, mid, post := ms[..at], [ms[at]], ms[at + 1..];
    assert ms == pre + mid + post;
    assert Removed(ms, at) == pre + post;
    assert Below(M, L, ms, L[r]);
    BelowAppend(M, L, pre + mid, post, L[r]);
    BelowAppend(M, L, pre, mid, L[r]);
    FlatAppend(M, L, pre + mid, post, L[r]);
    FlatAppend(M, L, pre, mid, L[r]);
    assert Below(M, L, pre + post, L[r]) by {
      forall q | Sub(q) in pre + post ensures q in M && q in L && L[q] < L[r] {
        assert Sub(q) in pre || Sub(q) in post;
      }
    }
    FlatAppend(M, L, pre, post, L[r]);
    forall y | y in DescOf(M, L, pre + post, L[r]) ensures y in M && y in M' && M'[y] == M[y] {
      DescOfLevel(M, L, pre + post, L[r], y);
    }
    AgreeOf(M, L, M', L', A0(M), pre + post, L[r], L'[r], Placeholder(0), OnAttach);
  }

  /** Dropping a member of a range that is attached under `p`, with no
      node twice, takes exactly that member's nodes out of the tree. */
  lemma {:induction false} DroppedNodes(M: Members, L: Levels, A: map<RangeId, seq<AugmenterId>>,
                                        t0: Tree, S0: map<RangeId, Status>, H0: seq<HookCall>, r: RangeId, at: nat, p: NodeId,
                                        res: Result<()>, t: Tree, S: map<RangeId, Status>, H: seq<HookCall>)
    requires Inv(t0, M, L, S0, A) && r in M && at < |M[r]|
    requires AllUnder(S0, Desc(M, L, r), p) && NoDup(Flat(M, L, r)) && AllPlaced(M, S0, DescOf(M, L, M[r], L[r]))
    requires Below(M, L, [M[r][at]], L[r])
    requires MemberDropped(M, L, A, t0, S0, H0, M[r][at], res, t, S, H)
    ensures res.Ok? && t == RemoveAll(t0, FlatOf(M, L, [M[r][at]], L[r]))
  {
    var g := M[r][at];
    assert [g][1..] == [];
    match g
    case Node(n) =>
      assert FlatOf(M, L, [g], L[r]) == [n];
    case Sub(q) =>
      MemberSettled(M, L, S0, r, at, p);
      MemberPlaced(M, L, S0, r, at);
      assert q in Desc(M, L, q);
      assert FlatOf(M, L, [g], L[r]) == Flat(M, L, q);
  }

  /** `removeMember` of one of several members of a range whose nodes form
      one run of its parent's children leaves the rest of the range as one
      run in the same place. */
  lemma {:induction false} RemoveMemberInPlace(M: Members, L: Levels, M': Members, L': Levels, A: map<RangeId, seq<AugmenterId>>,
                                               t0: Tree, S0: map<RangeId, Status>, H0: seq<HookCall>, b0: Links,
                                               r: RangeId, at: nat, p: NodeId,
                                               res: Result<()>, t: Tree, S: map<RangeId, Status>, H: seq<HookCall>, b: Links)
    requires Inv(t0, M, L, S0, A) && Ranked(M', L') && r in M && M'.Keys == M.Keys
    requires Settled(t0, M, L, S0, r) && S0[r].attached && S0[r].parentElement == Some(p)
    requires MemberRemovedAt(M, L, M', L', A, t0, S0, H0, b0, r, at, false, res, t, S, H, b)
    requires at < |M[r]| && |M[r]| > 1
    requires Run(Kids(t0, p), Flat(M, L, r))
    ensures res.Ok? && Kids(t, p) == Replace(Kids(t0, p), Flat(M, L, r), Flat(M', L', r))
    ensures Run(Kids(t, p), Flat(M', L', r))
  {
    var ms := M[r];
    FlatRemoved(M, L, M', L', r, at);
    DroppedNodes(M, L, A, t0, S0, H0, r, at, p, res, t, S, H);
    RemoveInRun(t0, p, FlatOf(M, L, ms[..at], L[r]), FlatOf(M, L, [ms[at]], L[r]), FlatOf(M, L, ms[at + 1..], L[r]), t);
  }

  /** What `moveMember(from, to)` does to an attached range when the
      indices differ: the member's nodes are moved, in order, before the
      node `addMember` picks as anchor in the list without the member. */
  ghost predicate MemberMoved(M: Members, L: Levels, M': Members, L': Levels, A: map<RangeId, seq<AugmenterId>>,
                              t0: Tree, S0: map<RangeId, Status>, H0: seq<HookCall>, r: RangeId, from: nat, to: nat,
                              res: Result<()>, t: Tree, S: map<RangeId, Status>, H: seq<HookCall>)
    requires Ranked(M, L) && Ranked(M', L') && r in M && from < |M[r]| && to < |M[r]|
    requires M.Keys <= A.Keys && M'.Keys == M.Keys && M.Keys <= S0.Keys
    requires S0[r].attached && S0[r].parentElement.Some?
  {
    RemovedRanked(M, L, r, from);
    var next := AddAnchor(M[r := Removed(M[r], from)], L, S0, t0, r, to);
    next.Ok? && MemberInserted(M', L', A, t0, S0, H0, M[r][from], S0[r].parentElement.value, next.value, true, res, t, S, H)
  }

  /** After the member at `from` of a settled range is spliced out for a
      move, `addMember` may take it back: the range stays settled, the
      member does not hold the range, and it is attached under the same
      parent element. */
  lemma {:induction false} MoveReady(t: Tree, M: Members, L: Levels, top: nat, S: map<RangeId, Status>, r: RangeId, from: nat)
    requires Ranked(M, L) && r in M && M.Keys <= S.Keys && LevelsBelow(L, top)
    requires from < |M[r]| && Settled(t, M, L, S, r)
    ensures var M1, m := M[r := Removed(M[r], from)], M[r][from];
      Ranked(M1, L) && Settled(t, M1, L, S, r) &&
      Below(M1, L, [m], top + 1) && (m.Sub? ==> r !in Desc(M1, L, m.range)) &&
      (m.Sub? && S[r].attached ==> AllUnder(S, Desc(M1, L, m.range), S[r].parentElement.value))
  {
    var M1, m := M[r := Removed(M[r], from)], M[r][from];
    RemovedSettled(t, M, L, S, r, from);
    MemberOfRange(M, L, r, from);
    if m.Sub? {
      var q := m.range;
      if r in Desc(M, L, q) {
        DescLevel(M, L, q, r);
      }
      AgreeOutside(M, L, M1, L, A0(M), q, r, Placeholder(0), OnAttach);
      if S[r].attached {
        MemberSettled(M, L, S, r, from, S[r].parentElement.value);
      }
    }
  }

  /** With another member left after the splice, the anchor `addMember`
      looks up for the move does not throw. */
  lemma {:induction false} MoveAnchor(t: Tree, M: Members, L: Levels, S: map<RangeId, Status>, r: RangeId, from: nat, to: nat)
    requires Ranked(M, L) && r in M && M.Keys <= S.Keys
    requires from < |M[r]| && to < |M[r]| && from != to
    requires Settled(t, M, L, S, r) && Placeholders(M, S) && S[r].attached
    ensures Ranked(M[r := Removed(M[r], from)], L) && M[r := Removed(M[r], from)][r] != []
    ensures AddAnchor(M[r := Removed(M[r], from)], L, S, t, r, to).Ok?
  {
    var M1 := M[r := Removed(M[r], from)];
    RemovedSettled(t, M, L, S, r, from);
    var p := S[r].parentElement.value;
    var ms1 := M1[r];
    if to == |ms1| {
      assert Placeholders(M1, S);
      LastOfFlat(M1, L, S, r, p);
    } else if ms1[to].Sub? {
      MemberOfRange(M1, L, r, to);
      EndsAttached(M1, L, S, ms1[to].range, p);
    }
  }

  /** What `moveMember(from, to)` on range `r` does, as its callers mean
      it: both indices are checked before anything changes and a move onto
      itself is left alone; otherwise the member at `from` is spliced out
      and `addMember` takes it back at `to`, moving its nodes, and no
      augmenter is told. */
  ghost predicate MemberMovedAt(M: Members, L: Levels, M': Members, L': Levels, A: map<RangeId, seq<AugmenterId>>,
                                t0: Tree, S0: map<RangeId, Status>, H0: seq<HookCall>, r: RangeId, from: int, to: int,
                                res: Result<()>, t: Tree, S: map<RangeId, Status>, H: seq<HookCall>)
    requires Inv(t0, M, L, S0, A) && Ranked(M', L') && M'.Keys == M.Keys && r in M && Settled(t0, M, L, S0, r)
  {
    (res.Ok? <==> 0 <= from < |M[r]| && 0 <= to < |M[r]|) &&
    (res.Err? ==> res.error == BadIndex && M' == M && t == t0 && S == S0 && H == H0) &&
    (res.Ok? ==> M' == M[r := Moved(M[r], from, to)]) &&
    (res.Ok? && (from == to || !S0[r].attached) ==> t == t0 && S == S0 && H == H0) &&
    (res.Ok? && from != to && S0[r].attached ==>
      MemberMoved(M, L, M', L', A, t0, S0, H0, r, from, to, res, t, S, H))
  }

  /** The nodes of a range before and after the member at `from` is moved
      to `to`: `x + g + y` becomes `u + g + v`, where `x + y == u + v` are
      the nodes of the list without the member, and the move's anchor is
      the first node of `v`, or the node after the run when `v` is empty. */
  lemma {:induction false} MovedFlat(M: Members, L: Levels, M': Members, L': Levels, S: map<RangeId, Status>, t: Tree,
                                     r: RangeId, from: nat, to: nat, p: NodeId)
    returns (x: seq<NodeId>, g: seq<NodeId>, y: seq<NodeId>, u: seq<NodeId>, v: seq<NodeId>, next: Option<NodeId>)
    requires Ranked(M, L) && Ranked(M', L') && r in M && M.Keys <= S.Keys && M'.Keys == M.Keys && Placeholders(M, S)
    requires from < |M[r]| && to < |M[r]| && from != to && M' == M[r := Moved(M[r], from, to)]
    requires Settled(t, M, L, S, r) && S[r].attached && S[r].parentElement == Some(p)
    ensures Below(M', L', [M[r][from]], L'[r]) && g == FlatOf(M', L', [M[r][from]], L'[r])
    ensures Flat(M, L, r) == x + g + y && Flat(M', L', r) == u + g + v && x + y == u + v
    ensures Ranked(M[r := Removed(M[r], from)], L) && AddAnchor(M[r := Removed(M[r], from)], L, S, t, r, to) == Ok(next)
    ensures v != [] ==> next == Some(v[0])
    ensures v == [] ==> y != [] && next == NextSibling(t, y[|y| - 1])
  {
    var ms, m := M[r], M[r][from];
    var M1 := M[r := Removed(ms, from)];
    x, g, y := MovedOut(M, L, S, t, r, from);
    MovedSplit(M, r, from, to);
    u, v, next := MovedIn(M1, L, M', L', S, t, r, to, m, p);
    KeptOf(M, L, M', L', r, [m]);
    if v == [] {
      LastOfJoin(x, y);
    }
  }

  /** A move is a splice out followed by a splice in. */
  lemma {:induction false} MovedSplit(M: Members, r: RangeId, from: nat, to: nat)
    requires r in M && from < |M[r]| && to < |M[r]|
    ensures M[r := Moved(M[r], from, to)] == M[r := Removed(M[r], from)][r := Inserted(Removed(M[r], from), to, M[r][from])]
  {
  }

  /** Splicing the member at `from` out of a settled range with other
      members: its nodes `g` drop out from between `x` and `y`, and `y` is
      not empty unless the member was the last. */
  lemma {:induction false} MovedOut(M: Members, L: Levels, S: map<RangeId, Status>, t: Tree, r: RangeId, from: nat)
    returns (x: seq<NodeId>, g: seq<NodeId>, y: seq<NodeId>)
    requires Ranked(M, L) && r in M && M.Keys <= S.Keys && Placeholders(M, S)
    requires from < |M[r]| && |M[r]| > 1 && Settled(t, M, L, S, r)
    ensures var M1 := M[r := Removed(M[r], from)];
      Ranked(M1, L) && Settled(t, M1, L, S, r) && Placeholders(M1, S) &&
      Flat(M1, L, r) == x + y && M1[r] != []
    ensures Below(M, L, [M[r][from]], L[r]) && g == FlatOf(M, L, [M[r][from]], L[r])
    ensures Flat(M, L, r) == x + g + y && (from < |M[r]| - 1 ==> y != [])
  {
    var ms, m := M[r], M[r][from];
    var M1 := M[r := Removed(ms, from)];
    RemovedSettled(t, M, L, S, r, from);
    FlatRemoved(M, L, M1, L, r, from);
    x, g, y := FlatOf(M, L, ms[..from], L[r]), FlatOf(M, L, [m], L[r]), FlatOf(M, L, ms[from + 1..], L[r]);
    assert Placeholders(M1, S);
    assert from < |ms| - 1 ==> ms[from + 1..] != [];
  }

  /** Splicing member `m` back in at `to`: its nodes come between `u` and
      `v`, and `addMember`'s anchor is the first node of `v`, or the node
      after the range's last one when `v` is empty. */
  lemma {:induction false} MovedIn(M1: Members, L: Levels, M': Members, L': Levels, S: map<RangeId, Status>, t: Tree,
                                   r: RangeId, to: nat, m: Member, p: NodeId)
    returns (u: seq<NodeId>, v: seq<NodeId>, next: Option<NodeId>)
    requires Ranked(M1, L) && Ranked(M', L') && r in M1 && M1.Keys <= S.Keys && Placeholders(M1, S)
    requires to <= |M1[r]| && M1[r] != [] && M' == M1[r := Inserted(M1[r], to, m)]
    requires Settled(t, M1, L, S, r) && S[r].attached && S[r].parentElement == Some(p)
    ensures Below(M', L', [m], L'[r]) && Flat(M', L', r) == u + FlatOf(M', L', [m], L'[r]) + v
    ensures Flat(M1, L, r) == u + v && AddAnchor(M1, L, S, t, r, to) == Ok(next)
    ensures v != [] ==> next == Some(v[0])
    ensures v == [] ==> to == |M1[r]| && next == NextSibling(t, Flat(M1, L, r)[|Flat(M1, L, r)| - 1])
  {
    var rest := M1[r];
    FlatInserted(M1, L, M', L', r, to, m);
    u, v := FlatOf(M1, L, rest[..to], L[r]), FlatOf(M1, L, rest[to..], L[r]);
    AddAnchorAt(M1, L, S, t, r, to, p);
    next := AddAnchor(M1, L, S, t, r, to).value;
    if to == |rest| {
      assert rest[to..] == [];
    }
  }

  /** `moveMember(from, to)` between two different indices of an attached
      range whose nodes form one run of its parent's children moves the
      member's nodes to their new place inside that run: the range stays
      one run, in place, in its new order. */
  lemma {:induction false} MoveMemberInPlace(M: Members, L: Levels, M': Members, L': Levels, A: map<RangeId, seq<AugmenterId>>,
                                             t0: Tree, S0: map<RangeId, Status>, H0: seq<HookCall>,
                                             r: RangeId, from: int, to: int, p: NodeId,
                                             res: Result<()>, t: Tree, S: map<RangeId, Status>, H: seq<HookCall>)
    requires Inv(t0, M, L, S0, A) && Ranked(M', L') && r in M && M'.Keys == M.Keys && Placeholders(M, S0)
    requires Settled(t0, M, L, S0, r) && S0[r].attached && S0[r].parentElement == Some(p)
    requires MemberMovedAt(M, L, M', L', A, t0, S0, H0, r, from, to, res, t, S, H)
    requires 0 <= from < |M[r]| && 0 <= to < |M[r]| && from != to
    requires Run(Kids(t0, p), Flat(M, L, r))
    ensures res.Ok? && Kids(t, p) == Replace(Kids(t0, p), Flat(M, L, r), Flat(M', L', r))
    ensures Run(Kids(t, p), Flat(M', L', r))
  {
    var m := M[r][from];
    var x, g, y, u, v, next := MovedFlat(M, L, M', L', S0, t0, r, from, to, p);
    assert MemberInserted(M', L', A, t0, S0, H0, m, p, next, true, res, t, S, H);
    if m.Sub? {
      MemberSettled(M, L, S0, r, from, p);
    }
    InsertedNodes(M', L', A, t0, S0, H0, m, p, next, true, L'[r], res, t, S, H);
    MoveInRun(t0, p, x, g, y, u, v, next, t);
  }

  /** `moveMember(from, to)` (domrange.js:256-260), as `MemberMovedAt`
      says; back-pointers are untouched. */
  method MoveMember(M: Members, ghost L: Levels, ghost top: nat, A: map<RangeId, seq<AugmenterId>>,
                    t0: Tree, S0: map<RangeId, Status>, H0: seq<HookCall>, b0: Links,
                    r: RangeId, from: int, to: int)
    returns (res: Result<()>, M': Members, ghost L': Levels, ghost top': nat,
             t: Tree, S: map<RangeId, Status>, H: seq<HookCall>, b: Links)
    requires Inv(t0, M, L, S0, A) && r in M && LevelsBelow(L, top)
    requires Settled(t0, M, L, S0, r) && Placeholders(M, S0)
    ensures Inv(t, M', L', S, A) && LevelsBelow(L', top') && M'.Keys == M.Keys && b == b0
    ensures MemberMovedAt(M, L, M', L', A, t0, S0, H0, r, from, to, res, t, S, H)
  {
    if !(0 <= from < |M[r]| && 0 <= to < |M[r]|) {
      return Err(BadIndex), M, L, top, t0, S0, H0, b0;
    }
    if from == to {
      MovedKeeps(M[r], from, to);
      assert M[r := M[r]] == M;
      return Ok(()), M, L, top, t0, S0, H0, b0;
    }
    res, M', L', top', t, S, H, b := MoveApart(M, L, top, A, t0, S0, H0, b0, r, from, to);
  }

  /** The splice out and `addMember` of a move between two different
      indices. */
  method MoveApart(M: Members, ghost L: Levels, ghost top: nat, A: map<RangeId, seq<AugmenterId>>,
                   t0: Tree, S0: map<RangeId, Status>, H0: seq<HookCall>, b0: Links,
                   r: RangeId, from: nat, to: nat)
    returns (res: Result<()>, M': Members, ghost L': Levels, ghost top': nat,
             t: Tree, S: map<RangeId, Status>, H: seq<HookCall>, b: Links)
    requires Inv(t0, M, L, S0, A) && r in M && LevelsBelow(L, top)
    requires Settled(t0, M, L, S0, r) && Placeholders(M, S0)
    requires from < |M[r]| && to < |M[r]| && from != to
    ensures Inv(t, M', L', S, A) && LevelsBelow(L', top') && M'.Keys == M.Keys && b == b0
    ensures res.Ok? && M' == M[r := Moved(M[r], from, to)]
    ensures !S0[r].attached ==> t == t0 && S == S0 && H == H0
    ensures S0[r].attached ==> MemberMoved(M, L, M', L', A, t0, S0, H0, r, from, to, res, t, S, H)
  {
    var m := M[r][from];
    MoveReady(t0, M, L, top, S0, r, from);
    if S0[r].attached {
      MoveAnchor(t0, M, L, S0, r, from, to);
    }
    var M1, t1, S1, H1, b1;
    ghost var L1, top1;
    res, M1, L1, top1, t1, S1, H1, b1 := RemoveMember(M, L, top, A, t0, S0, H0, b0, r, from, true);
    res, M', L', top', t, S, H, b := AddMember(M1, L1, top1, A, t1, S1, H1, b1, r, m, to, true);
    ghost var ms' := Inserted(Removed(M[r], from), to, m);
    assert ms' == Moved(M[r], from, to);
    assert M' == M[r := ms'] by {
      MapExt(M', M[r := ms']);
    }
  }

  /** `getMember` (domrange.js:262-267): the member at `at`, or a bad
      index, the array left as it is. */
  function GetMember(M: Members, r: RangeId, at: int): (res: Result<Member>)
    requires r in M
    ensures res.Ok? <==> 0 <= at < |M[r]|
    ensures res.Err? ==> res.error == BadIndex
    ensures res.Ok? ==> res.value in M[r]
  {
    if 0 <= at < |M[r]| then Ok(M[r][at]) else Err(BadIndex)
  }

  /** After `addMember(m, at)` has spliced `m` in, `getMember(at)` is `m`,
      and the members before and after it are found one index apart. */
  lemma {:induction false} GetAfterAdd(M: Members, r: RangeId, m: Member, at: nat, i: nat)
    requires r in M && at <= |M[r]| && i < |M[r]|
    ensures var M' := M[r := Inserted(M[r], at, m)];
      GetMember(M', r, at) == Ok(m) &&
      GetMember(M', r, if i < at then i else i + 1) == GetMember(M, r, i)
  {
    var ms' := Inserted(M[r], at, m);
    if i < at {
      assert ms'[i] == ms'[..at][i];
    } else {
      assert ms'[i + 1] == ms'[at + 1..][i - at];
    }
  }

  /** After `removeMember(at)` has spliced a member out, those after it are
      found one index lower. */
  lemma {:induction false} GetAfterRemove(M: Members, r: RangeId, at: nat, i: nat)
    requires r in M && at < |M[r]| && i < |M[r]| && i != at
    ensures GetMember(M[r := Removed(M[r], at)], r, if i < at then i else i - 1) == GetMember(M, r, i)
  {
    var ms' := Removed(M[r], at);
    if i < at {
      assert ms'[i] == ms'[..at][i];
    } else {
      assert ms'[i - 1] == ms'[at..][i - 1 - at];
    }
  }

  /** After `moveMember(from, to)`, `getMember(to)` is the member that
      `getMember(from)` was. */
  lemma {:induction false} GetAfterMove(M: Members, r: RangeId, from: nat, to: nat)
    requires r in M && from < |M[r]| && to < |M[r]|
    ensures GetMember(M[r := Moved(M[r], from, to)], r, to) == GetMember(M, r, from)
  {
  }

  /** A completed `setMembers` leaves every back-pointer naming a range
      that holds the member. */
  lemma {:induction false} SetKeepsBack(M: Members, L: Levels, M': Members, L': Levels, A: map<RangeId, seq<AugmenterId>>,
                                        t0: Tree, S0: map<RangeId, Status>, H0: seq<HookCall>, b0: Links,
                                        r: RangeId, ms: seq<Member>,
                                        res: Result<()>, t: Tree, S: map<RangeId, Status>, H: seq<HookCall>, b: Links)
    requires Ranked(M, L) && Ranked(M', L') && r in M && r in M' && M.Keys <= A.Keys && M'.Keys <= A.Keys && M.Keys <= S0.Keys
    requires S0[r].attached ==> S0[r].parentElement.Some?
    requires BackPointers(M, b0) && Relinked(b0, b, M[r], ms, r)
    requires MembersSet(M, L, M', L', A, t0, S0, H0, r, ms, res, t, S, H)
    ensures res.Ok? ==> BackPointers(M', b)
  {
    if res.Ok? {
      RelinkedBack(M, b0, b, r, M[r], ms, ms);
    }
  }

  /** A completed `addMember`, moving or not, leaves every back-pointer
      naming a range that holds the member; so does one refused for its
      index. */
  lemma {:induction false} AddKeepsBack(M: Members, L: Levels, M': Members, L': Levels, A: map<RangeId, seq<AugmenterId>>,
                                        t0: Tree, S0: map<RangeId, Status>, H0: seq<HookCall>, b0: Links,
                                        r: RangeId, m: Member, at: int, move: bool,
                                        res: Result<()>, t: Tree, S: map<RangeId, Status>, H: seq<HookCall>, b: Links)
    requires Inv(t0, M, L, S0, A) && Ranked(M', L') && M'.Keys == M.Keys && r in M && Settled(t0, M, L, S0, r)
    requires BackPointers(M, b0)
    requires MemberAddedAt(M, L, M', L', A, t0, S0, H0, b0, r, m, at, move, res, t, S, H, b)
    ensures res.Ok? || res == Err(BadIndex) ==> BackPointers(M', b)
  {
    if res.Ok? {
      var ms' := AddedLinks(M, L, M', L', A, t0, S0, H0, b0, r, m, at, move, res, t, S, H, b);
      AddedBack(M, b0, b, r, at, m, ms');
    }
  }

  /** A completed `addMember` splices `m` into `r`'s list, or makes it the
      only member of an empty attached range, and sets its pointer to `r`
      or leaves all pointers alone. */
  lemma {:induction false} AddedLinks(M: Members, L: Levels, M': Members, L': Levels, A: map<RangeId, seq<AugmenterId>>,
                                      t0: Tree, S0: map<RangeId, Status>, H0: seq<HookCall>, b0: Links,
                                      r: RangeId, m: Member, at: int, move: bool,
                                      res: Result<()>, t: Tree, S: map<RangeId, Status>, H: seq<HookCall>, b: Links)
    returns (ms': seq<Member>)
    requires Inv(t0, M, L, S0, A) && Ranked(M', L') && M'.Keys == M.Keys && r in M && Settled(t0, M, L, S0, r)
    requires MemberAddedAt(M, L, M', L', A, t0, S0, H0, b0, r, m, at, move, res, t, S, H, b) && res.Ok?
    ensures 0 <= at <= |M[r]| && M' == M[r := ms'] && (b == b0 || Relinked(b0, b, [], [m], r))
    ensures ms' == Inserted(M[r], at, m) || (M[r] == [] && ms' == [m])
  {
    if !S0[r].attached {
      ms' := Inserted(M[r], at, m);
    } else if M[r] == [] {
      ms' := [m];
      assert MembersSet(M, L, M', L', A, t0, S0, H0, r, [m], res, t, S, H);
    } else {
      ms' := Inserted(M[r], at, m);
      assert MemberAdded(M, L, M', L', A, t0, S0, H0, r, m, at, move, res, t, S, H);
      var next := AddAnchor(M, L, S0, t0, r, at);
      assert next.Err? ==> res.Err?;
      assert M' == M[r := ms'];
    }
  }

  /** Splicing `m` in, with its pointer set to `r` or all pointers left
      alone, keeps the pointers sound. */
  lemma {:induction false} AddedBack(M: Members, b0: Links, b: Links, r: RangeId, at: nat, m: Member, ms': seq<Member>)
    requires BackPointers(M, b0) && r in M && at <= |M[r]|
    requires ms' == Inserted(M[r], at, m) || (M[r] == [] && ms' == [m])
    requires b == b0 || Relinked(b0, b, [], [m], r)
    ensures BackPointers(M[r := ms'], b)
  {
    assert m in ms' && forall x | x in M[r] :: x in ms' by {
      if ms' == Inserted(M[r], at, m) {
        assert ms' == M[r][..at] + [m] + M[r][at..];
        assert M[r] == M[r][..at] + M[r][at..];
      }
    }
    if b == b0 {
      WiderBack(M, b0, r, ms');
    } else {
      RelinkedBack(M, b0, b, r, [], [m], ms');
    }
  }

  /** `removeMember(at)` without moving leaves every back-pointer naming
      a range that holds the member, whatever it answers. */
  lemma {:induction false} RemoveKeepsBack(M: Members, L: Levels, M': Members, L': Levels, A: map<RangeId, seq<AugmenterId>>,
                                           t0: Tree, S0: map<RangeId, Status>, H0: seq<HookCall>, b0: Links,
                                           r: RangeId, at: int,
                                           res: Result<()>, t: Tree, S: map<RangeId, Status>, H: seq<HookCall>, b: Links)
    requires Inv(t0, M, L, S0, A) && Ranked(M', L') && M'.Keys == M.Keys && r in M && Settled(t0, M, L, S0, r)
    requires BackPointers(M, b0)
    requires MemberRemovedAt(M, L, M', L', A, t0, S0, H0, b0, r, at, false, res, t, S, H, b)
    ensures BackPointers(M', b)
  {
    if 0 <= at < |M[r]| {
      var ms' := RemovedLinks(M, L, M', L', A, t0, S0, H0, b0, r, at, res, t, S, H, b);
      DroppedBack(M, b0, b, r, at, ms');
    }
  }

  /** `removeMember(at)` without moving, at an index inside the list,
      clears the member's pointer and leaves `r` with its list, without the
      member, or with no members. */
  lemma {:induction false} RemovedLinks(M: Members, L: Levels, M': Members, L': Levels, A: map<RangeId, seq<AugmenterId>>,
                                        t0: Tree, S0: map<RangeId, Status>, H0: seq<HookCall>, b0: Links,
                                        r: RangeId, at: int,
                                        res: Result<()>, t: Tree, S: map<RangeId, Status>, H: seq<HookCall>, b: Links)
    returns (ms': seq<Member>)
    requires Inv(t0, M, L, S0, A) && Ranked(M', L') && M'.Keys == M.Keys && r in M && Settled(t0, M, L, S0, r)
    requires MemberRemovedAt(M, L, M', L', A, t0, S0, H0, b0, r, at, false, res, t, S, H, b) && 0 <= at < |M[r]|
    ensures Relinked(b0, b, [M[r][at]], [], r) && M' == M[r := ms']
    ensures ms' == M[r] || ms' == Removed(M[r], at) || (|M[r]| == 1 && ms' == [])
  {
    if |M[r]| > 1 {
      ms' := Removed(M[r], at);
    } else {
      assert MembersSet(M, L, M', L', A, t0, S0, H0, r, [], res, t, S, H);
      ms' := if res.Ok? then [] else M[r];
      assert res.Err? ==> M' == M;
      MapExt(M', M[r := ms']);
    }
  }

  /** Clearing the pointer of the member at `at` keeps the pointers sound
      whether the range keeps its list, loses that member, or loses its
      only member. */
  lemma {:induction false} DroppedBack(M: Members, b0: Links, b: Links, r: RangeId, at: nat, ms': seq<Member>)
    requires BackPointers(M, b0) && r in M && at < |M[r]| && Relinked(b0, b, [M[r][at]], [], r)
    requires ms' == M[r] || ms' == Removed(M[r], at) || (|M[r]| == 1 && ms' == [])
    ensures BackPointers(M[r := ms'], b)
  {
    var ms, x := M[r], M[r][at];
    assert forall y | y in ms :: y in ms' || y in [x] by {
      if ms' == Removed(ms, at) {
        assert ms == ms[..at] + [x] + ms[at + 1..];
      }
    }
    RelinkedBack(M, b0, b, r, [x], [], ms');
  }

  /** The corrected `moveMember` keeps the members and the back-pointers,
      so every back-pointer still names a range that holds the member. */
  lemma {:induction false} MoveKeepsBack(M: Members, L: Levels, M': Members, L': Levels, A: map<RangeId, seq<AugmenterId>>,
                                         t0: Tree, S0: map<RangeId, Status>, H0: seq<HookCall>, b: Links,
                                         r: RangeId, from: int, to: int,
                                         res: Result<()>, t: Tree, S: map<RangeId, Status>, H: seq<HookCall>)
    requires Inv(t0, M, L, S0, A) && Ranked(M', L') && M'.Keys == M.Keys && r in M && Settled(t0, M, L, S0, r)
    requires BackPointers(M, b)
    requires MemberMovedAt(M, L, M', L', A, t0, S0, H0, r, from, to, res, t, S, H)
    ensures BackPointers(M', b)
  {
    if res.Ok? {
      var ms := Moved(M[r], from, to);
      MovedKeeps(M[r], from, to);
      assert forall x | x in M[r] :: x in ms by {
        forall x | x in M[r] ensures x in ms {
          assert x in multiset(M[r]);
        }
      }
      WiderBack(M, b, r, ms);
    }
  }
}
