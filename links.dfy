/** The back-pointers a range sets on its members: `parentRange` on a
    nested range and `$blaze_range` on a member element
    (`_memberIn`/`_memberOut`, packages/blaze/domrange.js:282-297).
    Clearing a pointer stores `null`, written `None`. */
module BackLinks {
  import opened Util
  import opened HostTree
  import opened Ranges

  datatype Links = Links(parentRange: map<RangeId, Option<RangeId>>, blazeRange: map<NodeId, Option<RangeId>>)

  /** Point the back-pointer of member `m` at `v`: a nested range's
      `parentRange`, or an element's `$blaze_range`; a member that is
      neither a range nor an element has none. */
  function Mark(b: Links, m: Member, v: Option<RangeId>): Links {
    match m
    case Sub(q) => b.(parentRange := b.parentRange[q := v])
    case Node(n) => if n.Element? then b.(blazeRange := b.blazeRange[n := v]) else b
  }

  /** `_memberIn` (domrange.js:282-287): `m` now points at range `r`. */
  function MemberIn(b: Links, r: RangeId, m: Member): (b': Links)
    ensures ParentsMarked(b, b', [m], Some(r)) && ElemsMarked(b, b', [m], Some(r))
  {
    MarkedOne(b, m, Some(r));
    Mark(b, m, Some(r))
  }

  /** `_memberOut` (domrange.js:289-297): `m` points at no range. */
  function MemberOut(b: Links, m: Member): (b': Links)
    ensures ParentsMarked(b, b', [m], None) && ElemsMarked(b, b', [m], None)
  {
    MarkedOne(b, m, None);
    Mark(b, m, None)
  }

  /** `Mark` of one member is the marking of a one-member list. */
  lemma {:induction false} MarkedOne(b: Links, m: Member, v: Option<RangeId>)
    ensures ParentsMarked(b, Mark(b, m, v), [m], v) && ElemsMarked(b, Mark(b, m, v), [m], v)
  {
    assert SubsOf([]) == {} && ElemsOf([]) == {};
    MarkParentsStep(b, b, [], m, v);
    MarkElemsStep(b, b, [], m, v);
    assert [] + [m] == [m];
  }

  /** The nested ranges and the member elements of a member list. */
  ghost function SubsOf(ms: seq<Member>): set<RangeId> {
    set m | m in ms && m.Sub? :: m.range
  }

  ghost function ElemsOf(ms: seq<Member>): set<NodeId> {
    set m | m in ms && m.Node? && m.node.Element? :: m.node
  }

  /** The `_memberIn`/`_memberOut` loop over a member list
      (domrange.js:19-20, 142-145): every member's back-pointer becomes
      `v`, and every other pointer stays as it was. */
  method MarkAll(b0: Links, ms: seq<Member>, v: Option<RangeId>) returns (b: Links)
    ensures ParentsMarked(b0, b, ms, v) && ElemsMarked(b0, b, ms, v)
  {
    b := b0;
    var i := 0;
    assert ms[..0] == [];
    while i < |ms|
      invariant i <= |ms|
      invariant ParentsMarked(b0, b, ms[..i], v) && ElemsMarked(b0, b, ms[..i], v)
    {
      assert ms[..i + 1] == ms[..i] + [ms[i]];
      MarkParentsStep(b0, b, ms[..i], ms[i], v);
      MarkElemsStep(b0, b, ms[..i], ms[i], v);
      b := Mark(b, ms[i], v);
      i := i + 1;
    }
    assert ms[..i] == ms;
  }

  /** Every nested range of `ms` has `parentRange` `v` in `b`; every other
      range keeps the one it had in `b0`. */
  ghost predicate ParentsMarked(b0: Links, b: Links, ms: seq<Member>, v: Option<RangeId>) {
    b.parentRange.Keys == b0.parentRange.Keys + SubsOf(ms) &&
    forall q | q in b.parentRange :: b.parentRange[q] == if Sub(q) in ms then v else b0.parentRange[q]
  }

  /** Every element of `ms` has `$blaze_range` `v` in `b`; every other node
      keeps the one it had in `b0`. */
  ghost predicate ElemsMarked(b0: Links, b: Links, ms: seq<Member>, v: Option<RangeId>) {
    b.blazeRange.Keys == b0.blazeRange.Keys + ElemsOf(ms) &&
    forall n | n in b.blazeRange :: b.blazeRange[n] == if Node(n) in ms && n.Element? then v else b0.blazeRange[n]
  }

  lemma {:induction false} MarkParentsStep(b0: Links, b: Links, pre: seq<Member>, m: Member, v: Option<RangeId>)
    requires ParentsMarked(b0, b, pre, v)
    ensures ParentsMarked(b0, Mark(b, m, v), pre + [m], v)
  {
    var b' := Mark(b, m, v);
    assert SubsOf(pre + [m]) == SubsOf(pre) + (if m.Sub? then {m.range} else {});
    forall q | q in b'.parentRange
      ensures b'.parentRange[q] == if Sub(q) in pre + [m] then v else b0.parentRange[q]
    {
      assert Sub(q) in pre + [m] <==> Sub(q) in pre || Sub(q) == m;
    }
  }

  lemma {:induction false} MarkElemsStep(b0: Links, b: Links, pre: seq<Member>, m: Member, v: Option<RangeId>)
    requires ElemsMarked(b0, b, pre, v)
    ensures ElemsMarked(b0, Mark(b, m, v), pre + [m], v)
  {
    var b' := Mark(b, m, v);
    assert ElemsOf(pre + [m]) == ElemsOf(pre) + (if m.Node? && m.node.Element? then {m.node} else {});
    forall n | n in b'.blazeRange
      ensures b'.blazeRange[n] == if Node(n) in pre + [m] && n.Element? then v else b0.blazeRange[n]
    {
      assert Node(n) in pre + [m] <==> Node(n) in pre || Node(n) == m;
    }
  }

  /** Each pointer names a range that holds the pointing member; only
      elements carry `$blaze_range`. */
  ghost predicate BackPointers(M: Members, b: Links) {
    (forall q | q in b.parentRange && b.parentRange[q].Some? :: b.parentRange[q].value in M && Sub(q) in M[b.parentRange[q].value]) &&
    (forall n | n in b.blazeRange && b.blazeRange[n].Some? :: n.Element? && b.blazeRange[n].value in M && Node(n) in M[b.blazeRange[n].value])
  }

  /** `_memberOut` undoes `_memberIn`. */
  lemma {:induction false} OutUndoesIn(b: Links, r: RangeId, m: Member)
    ensures MemberOut(MemberIn(b, r, m), m) == MemberOut(b, m)
  {
  }

  /** The back-pointers after member list `was` of range `r` gave way to
      `now`: each member of `now` points at `r`, each other member of `was`
      points nowhere, and every other pointer is as it was in `b0`. */
  ghost predicate Relinked(b0: Links, b: Links, was: seq<Member>, now: seq<Member>, r: RangeId) {
    b.parentRange.Keys == b0.parentRange.Keys + SubsOf(was) + SubsOf(now) &&
    b.blazeRange.Keys == b0.blazeRange.Keys + ElemsOf(was) + ElemsOf(now) &&
    (forall q | q in b.parentRange :: b.parentRange[q] ==
      if Sub(q) in now then Some(r) else if Sub(q) in was then None else b0.parentRange[q]) &&
    (forall n | n in b.blazeRange :: b.blazeRange[n] ==
      if Node(n) in now && n.Element? then Some(r) else if Node(n) in was && n.Element? then None else b0.blazeRange[n])
  }

  /** The two loops of `setMembers` (domrange.js:142-145): `_memberOut` of
      the old members, then `_memberIn` of the new ones. */
  lemma {:induction false} OutThenIn(b0: Links, b1: Links, b: Links, was: seq<Member>, now: seq<Member>, r: RangeId)
    requires ParentsMarked(b0, b1, was, None) && ElemsMarked(b0, b1, was, None)
    requires ParentsMarked(b1, b, now, Some(r)) && ElemsMarked(b1, b, now, Some(r))
    ensures Relinked(b0, b, was, now, r)
  {
  }

  /** The two loops of `setMembers` (domrange.js:142-145). */
  method Relink(b0: Links, was: seq<Member>, now: seq<Member>, r: RangeId) returns (b: Links)
    ensures Relinked(b0, b, was, now, r)
  {
    b := MarkAll(b0, was, None);
    ghost var b1 := b;
    b := MarkAll(b, now, Some(r));
    OutThenIn(b0, b1, b, was, now, r);
  }

  /** `_memberIn` of one member, as a relinking. */
  lemma {:induction false} MemberInRelinks(b0: Links, r: RangeId, m: Member)
    ensures Relinked(b0, MemberIn(b0, r, m), [], [m], r)
  {
    var b := MemberIn(b0, r, m);
    assert SubsOf([m]) == if m.Sub? then {m.range} else {};
    assert ElemsOf([m]) == if m.Node? && m.node.Element? then {m.node} else {};
    assert SubsOf([]) == {} && ElemsOf([]) == {};
  }

  /** `_memberOut` of one member, as a relinking. */
  lemma {:induction false} MemberOutRelinks(b0: Links, r: RangeId, m: Member)
    ensures Relinked(b0, MemberOut(b0, m), [m], [], r)
  {
    var b := MemberOut(b0, m);
    assert SubsOf([m]) == if m.Sub? then {m.range} else {};
    assert ElemsOf([m]) == if m.Node? && m.node.Element? then {m.node} else {};
    assert SubsOf([]) == {} && ElemsOf([]) == {};
  }

  /** Relinking the same lists twice is relinking them once. */
  lemma {:induction false} RelinkedTwice(b0: Links, b1: Links, b: Links, was: seq<Member>, now: seq<Member>, r: RangeId)
    requires Relinked(b0, b1, was, now, r) && Relinked(b1, b, was, now, r)
    ensures Relinked(b0, b, was, now, r)
  {
  }

  /** After a relinking, the pointers still name ranges holding the
      members, once range `r` holds `ms`: every member of `now`, and every
      old member of `r` other than those of `was`. */
  lemma {:induction false} RelinkedBack(M: Members, b0: Links, b: Links, r: RangeId, was: seq<Member>, now: seq<Member>, ms: seq<Member>)
    requires BackPointers(M, b0) && r in M && Relinked(b0, b, was, now, r)
    requires forall m | m in now :: m in ms
    requires forall m | m in M[r] :: m in ms || m in was
    ensures BackPointers(M[r := ms], b)
  {
    var M' := M[r := ms];
    forall q | q in b.parentRange && b.parentRange[q].Some?
      ensures b.parentRange[q].value in M' && Sub(q) in M'[b.parentRange[q].value]
    {
      if Sub(q) !in now && Sub(q) !in was {
        assert q in b0.parentRange;
      }
    }
    forall n | n in b.blazeRange && b.blazeRange[n].Some?
      ensures n.Element? && b.blazeRange[n].value in M' && Node(n) in M'[b.blazeRange[n].value]
    {
      if !(Node(n) in now && n.Element?) && !(Node(n) in was && n.Element?) {
        assert n in b0.blazeRange;
      }
    }
  }

  /** A range that keeps every member it had, and maybe gains some, keeps
      every pointer at it sound. */
  lemma {:induction false} WiderBack(M: Members, b: Links, r: RangeId, ms: seq<Member>)
    requires BackPointers(M, b) && r in M
    requires forall m | m in M[r] :: m in ms
    ensures BackPointers(M[r := ms], b)
  {
    var M' := M[r := ms];
    forall q | q in b.parentRange && b.parentRange[q].Some?
      ensures b.parentRange[q].value in M' && Sub(q) in M'[b.parentRange[q].value]
    {
      assert Sub(q) in M[b.parentRange[q].value];
    }
    forall n | n in b.blazeRange && b.blazeRange[n].Some?
      ensures n.Element? && b.blazeRange[n].value in M' && Node(n) in M'[b.blazeRange[n].value]
    {
      assert Node(n) in M[b.blazeRange[n].value];
    }
  }
}
