/** The per-range records, and what attaching or detaching a range member by
    member does to the tree, the records and the augmenter log, stated for
    a prefix of the member array: the loop invariants of
    `Engine.InsertMembers` and `Engine.DropMembers` and the step from one
    member to the next. */
module Steps {
  import opened Util
  import opened Seqs
  import opened HostTree
  import opened Ranges

  /** The record of a range just attached under `p`: it has a placeholder
      exactly when it has no members. */
  function AttachedStatus(ms: seq<Member>, r: RangeId, p: NodeId): Status {
    Status(true, Some(p), if ms == [] then Some(Placeholder(r)) else None)
  }

  /** The record of a range just detached: an empty range drops its
      placeholder, a non-empty one keeps the field as it was. */
  function DetachedStatus(s: Status, ms: seq<Member>): Status {
    Status(false, None, if ms == [] then None else s.emptyRangePlaceholder)
  }

  /** Records after attaching every range of `D` under `p`. */
  ghost function Reflag(S: map<RangeId, Status>, M: Members, D: set<RangeId>, p: NodeId): map<RangeId, Status> {
    map x | x in S :: if x in D && x in M then AttachedStatus(M[x], x, p) else S[x]
  }

  /** Records after detaching every range of `D`. */
  ghost function Unflag(S: map<RangeId, Status>, M: Members, D: set<RangeId>): map<RangeId, Status> {
    map x | x in S :: if x in D && x in M then DetachedStatus(S[x], M[x]) else S[x]
  }

  /** Every range of `D` is attached under `p`. */
  ghost predicate AllUnder(S: map<RangeId, Status>, D: set<RangeId>, p: NodeId) {
    forall d | d in D :: d in S && S[d].attached && S[d].parentElement == Some(p)
  }

  /** Every attached empty range of `D` holds a placeholder node. */
  ghost predicate AllPlaced(M: Members, S: map<RangeId, Status>, D: set<RangeId>) {
    forall d | d in D && d in M && d in S && S[d].attached && M[d] == [] :: S[d].emptyRangePlaceholder.Some?
  }

  /** Detaching ranges keeps every attached empty range's placeholder. */
  lemma UnflagPlaced(S: map<RangeId, Status>, M: Members, D: set<RangeId>, X: set<RangeId>)
    requires AllPlaced(M, S, X)
    ensures AllPlaced(M, Unflag(S, M, D), X)
  {
  }

  lemma {:induction false} ReflagTwice(S: map<RangeId, Status>, M: Members, D1: set<RangeId>, D2: set<RangeId>, p: NodeId)
    ensures Reflag(Reflag(S, M, D1, p), M, D2, p) == Reflag(S, M, D1 + D2, p)
  {
  }

  lemma {:induction false} UnflagTwice(S: map<RangeId, Status>, M: Members, D1: set<RangeId>, D2: set<RangeId>)
    ensures Unflag(Unflag(S, M, D1), M, D2) == Unflag(S, M, D1 + D2)
  {
  }

  lemma {:induction false} ReflagOne(S: map<RangeId, Status>, M: Members, D: set<RangeId>, r: RangeId, p: NodeId)
    requires r in S && r in M
    ensures Reflag(S, M, D, p)[r := AttachedStatus(M[r], r, p)] == Reflag(S, M, {r} + D, p)
  {
  }

  lemma {:induction false} UnflagOne(S: map<RangeId, Status>, M: Members, D: set<RangeId>, r: RangeId)
    requires r in S && r in M
    ensures Unflag(S, M, D)[r := DetachedStatus(Unflag(S, M, D)[r], M[r])] == Unflag(S, M, {r} + D)
  {
  }

  /** Attaching keeps ranges attached under `p` attached under `p`. */
  lemma {:induction false} ReflagUnder(S: map<RangeId, Status>, M: Members, D: set<RangeId>, X: set<RangeId>, p: NodeId)
    requires AllUnder(S, X, p)
    ensures AllUnder(Reflag(S, M, D, p), X, p)
  {
  }

  /** The state after attaching the first `i` members of `r`, starting from
      tree `t0`, records `S0` and log `H0`. */
  ghost predicate AttachedPrefix(M: Members, L: Levels, A: map<RangeId, seq<AugmenterId>>, r: RangeId, i: nat,
                                 p: NodeId, next: Option<NodeId>, move: bool,
                                 t0: Tree, S0: map<RangeId, Status>, H0: seq<HookCall>,
                                 t: Tree, S: map<RangeId, Status>, H: seq<HookCall>)
    requires Ranked(M, L) && r in M && i <= |M[r]| && M.Keys <= A.Keys
  {
    var pre := M[r][..i];
    Below(M, L, pre, L[r]) &&
    t == PlaceAll(t0, FlatOf(M, L, pre, L[r]), p, next, move) &&
    S == Reflag(S0, M, DescOf(M, L, pre, L[r]), p) &&
    H == H0 + (if move then [] else HooksOf(M, L, A, pre, L[r], p, OnAttach))
  }

  /** The state after detaching the first `i` members of `r`. */
  ghost predicate DetachedPrefix(M: Members, L: Levels, A: map<RangeId, seq<AugmenterId>>, r: RangeId, i: nat, p: NodeId,
                                 t0: Tree, S0: map<RangeId, Status>, H0: seq<HookCall>,
                                 t: Tree, S: map<RangeId, Status>, H: seq<HookCall>)
    requires Ranked(M, L) && r in M && i <= |M[r]| && M.Keys <= A.Keys
  {
    var pre := M[r][..i];
    Below(M, L, pre, L[r]) &&
    t == RemoveAll(t0, FlatOf(M, L, pre, L[r])) &&
    S == Unflag(S0, M, DescOf(M, L, pre, L[r])) &&
    H == H0 + HooksOf(M, L, A, pre, L[r], p, OnDetach)
  }

  /** Member `i` of `r`: a node of `r`, or a range nested in `r` whose nodes
      are nodes of `r`. */
  lemma {:induction false} MemberOfRange(M: Members, L: Levels, r: RangeId, i: nat)
    requires Ranked(M, L) && r in M && i < |M[r]|
    ensures M[r][i].Node? ==> M[r][i].node in Flat(M, L, r)
    ensures M[r][i].Sub? ==> var q := M[r][i].range;
      q in M && L[q] < L[r] && q in Desc(M, L, r) && Desc(M, L, q) <= Desc(M, L, r) &&
      forall n | n in Flat(M, L, q) :: n in Flat(M, L, r)
  {
    var ms := M[r];
    assert ms[i] in ms;
    match ms[i]
    case Node(n) =>
      NodeInFlatOf(M, L, ms, L[r], n);
    case Sub(q) =>
      SubInDescOf(M, L, ms, L[r], q);
      Within(M, L, r, q);
  }

  /** The members before `i`, the member at `i` and those after. */
  lemma {:induction false} SplitAt(M: Members, L: Levels, A: map<RangeId, seq<AugmenterId>>, r: RangeId, i: nat, p: NodeId, kind: HookKind)
    requires Ranked(M, L) && r in M && i < |M[r]| && M.Keys <= A.Keys
    ensures var ms := M[r]; var m := ms[i];
      Below(M, L, ms[..i], L[r]) && Below(M, L, [m], L[r]) && Below(M, L, ms[..i + 1], L[r]) && Below(M, L, ms[i + 1..], L[r]) &&
      FlatOf(M, L, ms[..i + 1], L[r]) == FlatOf(M, L, ms[..i], L[r]) + FlatOf(M, L, [m], L[r]) &&
      DescOf(M, L, ms[..i + 1], L[r]) == DescOf(M, L, ms[..i], L[r]) + DescOf(M, L, [m], L[r]) &&
      HooksOf(M, L, A, ms[..i + 1], L[r], p, kind) == HooksOf(M, L, A, ms[..i], L[r], p, kind) + HooksOf(M, L, A, [m], L[r], p, kind) &&
      FlatOf(M, L, ms, L[r]) == FlatOf(M, L, ms[..i + 1], L[r]) + FlatOf(M, L, ms[i + 1..], L[r]) &&
      DescOf(M, L, ms, L[r]) == DescOf(M, L, ms[..i + 1], L[r]) + DescOf(M, L, ms[i + 1..], L[r]) &&
      (m.Node? ==> FlatOf(M, L, [m], L[r]) == [m.node] && DescOf(M, L, [m], L[r]) == {} && HooksOf(M, L, A, [m], L[r], p, kind) == []) &&
      (m.Sub? ==> (m.range in M &&
         FlatOf(M, L, [m], L[r]) == Flat(M, L, m.range) && DescOf(M, L, [m], L[r]) == Desc(M, L, m.range) &&
         HooksOf(M, L, A, [m], L[r], p, kind) == Hooks(M, L, A, m.range, p, kind)))
  {
    var ms := M[r];
    assert ms[..i + 1] == ms[..i] + [ms[i]];
    assert ms == ms[..i + 1] + ms[i + 1..];
    AppendOf(M, L, A, ms[..i + 1], ms[i + 1..], L[r], p, kind);
    AppendOf(M, L, A, ms[..i], [ms[i]], L[r], p, kind);
    assert [ms[i]][1..] == [];
  }

  /** One more member attached. */
  lemma {:induction false} AttachStep(M: Members, L: Levels, A: map<RangeId, seq<AugmenterId>>, r: RangeId, i: nat,
                                      p: NodeId, next: Option<NodeId>, move: bool,
                                      t0: Tree, S0: map<RangeId, Status>, H0: seq<HookCall>,
                                      t: Tree, S: map<RangeId, Status>, H: seq<HookCall>,
                                      t': Tree, S': map<RangeId, Status>, H': seq<HookCall>)
    requires Ranked(M, L) && r in M && i < |M[r]| && M.Keys <= A.Keys
    requires AttachedPrefix(M, L, A, r, i, p, next, move, t0, S0, H0, t, S, H)
    requires M[r][i].Node? ==> t' == Place(t, M[r][i].node, p, next, move) && S' == S && H' == H
    requires M[r][i].Sub? ==> (M[r][i].range in M &&
      t' == PlaceAll(t, Flat(M, L, M[r][i].range), p, next, move) &&
      S' == Reflag(S, M, Desc(M, L, M[r][i].range), p) &&
      H' == H + (if move then [] else Hooks(M, L, A, M[r][i].range, p, OnAttach)))
    ensures AttachedPrefix(M, L, A, r, i + 1, p, next, move, t0, S0, H0, t', S', H')
  {
    SplitAt(M, L, A, r, i, p, OnAttach);
    AttachTreeStep(M, L, r, i, p, next, move, t0, t, t');
    AttachStatusStep(M, L, r, i, p, S0, S, S');
    AttachHookStep(M, L, A, r, i, p, move, H0, H, H');
  }

  lemma {:induction false} AttachTreeStep(M: Members, L: Levels, r: RangeId, i: nat, p: NodeId, next: Option<NodeId>, move: bool,
                                          t0: Tree, t: Tree, t': Tree)
    requires Ranked(M, L) && r in M && i < |M[r]|
    requires Below(M, L, M[r][..i], L[r])
    requires t == PlaceAll(t0, FlatOf(M, L, M[r][..i], L[r]), p, next, move)
    requires M[r][i].Node? ==> t' == Place(t, M[r][i].node, p, next, move)
    requires M[r][i].Sub? ==> M[r][i].range in M && t' == PlaceAll(t, Flat(M, L, M[r][i].range), p, next, move)
    ensures Below(M, L, M[r][..i + 1], L[r])
    ensures t' == PlaceAll(t0, FlatOf(M, L, M[r][..i + 1], L[r]), p, next, move)
  {
    var ms := M[r];
    var m := ms[i];
    SplitAt(M, L, A0(M), r, i, p, OnAttach);
    var a, b := FlatOf(M, L, ms[..i], L[r]), FlatOf(M, L, [m], L[r]);
    PlaceAllAppend(t0, a, b, p, next, move);
    if m.Node? {
      assert PlaceAll(t, b, p, next, move) == t';
    }
  }

  lemma {:induction false} AttachStatusStep(M: Members, L: Levels, r: RangeId, i: nat, p: NodeId,
                                            S0: map<RangeId, Status>, S: map<RangeId, Status>, S': map<RangeId, Status>)
    requires Ranked(M, L) && r in M && i < |M[r]|
    requires Below(M, L, M[r][..i], L[r]) && S == Reflag(S0, M, DescOf(M, L, M[r][..i], L[r]), p)
    requires M[r][i].Node? ==> S' == S
    requires M[r][i].Sub? ==> M[r][i].range in M && S' == Reflag(S, M, Desc(M, L, M[r][i].range), p)
    ensures Below(M, L, M[r][..i + 1], L[r])
    ensures S' == Reflag(S0, M, DescOf(M, L, M[r][..i + 1], L[r]), p)
  {
    var ms := M[r];
    var m := ms[i];
    SplitAt(M, L, A0(M), r, i, p, OnAttach);
    if m.Sub? {
      ReflagTwice(S0, M, DescOf(M, L, ms[..i], L[r]), Desc(M, L, m.range), p);
    }
  }

  lemma {:induction false} AttachHookStep(M: Members, L: Levels, A: map<RangeId, seq<AugmenterId>>, r: RangeId, i: nat,
                                          p: NodeId, move: bool, H0: seq<HookCall>, H: seq<HookCall>, H': seq<HookCall>)
    requires Ranked(M, L) && r in M && i < |M[r]| && M.Keys <= A.Keys
    requires Below(M, L, M[r][..i], L[r])
    requires H == H0 + (if move then [] else HooksOf(M, L, A, M[r][..i], L[r], p, OnAttach))
    requires M[r][i].Node? ==> H' == H
    requires M[r][i].Sub? ==> M[r][i].range in M && H' == H + (if move then [] else Hooks(M, L, A, M[r][i].range, p, OnAttach))
    ensures Below(M, L, M[r][..i + 1], L[r])
    ensures H' == H0 + (if move then [] else HooksOf(M, L, A, M[r][..i + 1], L[r], p, OnAttach))
  {
    var ms := M[r];
    SplitAt(M, L, A, r, i, p, OnAttach);
    if !move {
      Assoc3(H0, HooksOf(M, L, A, ms[..i], L[r], p, OnAttach), HooksOf(M, L, A, [ms[i]], L[r], p, OnAttach));
    }
  }

  /** One more member detached. */
  lemma {:induction false} DetachStep(M: Members, L: Levels, A: map<RangeId, seq<AugmenterId>>, r: RangeId, i: nat, p: NodeId,
                                      t0: Tree, S0: map<RangeId, Status>, H0: seq<HookCall>,
                                      t: Tree, S: map<RangeId, Status>, H: seq<HookCall>,
                                      t': Tree, S': map<RangeId, Status>, H': seq<HookCall>)
    requires Ranked(M, L) && r in M && i < |M[r]| && M.Keys <= A.Keys
    requires DetachedPrefix(M, L, A, r, i, p, t0, S0, H0, t, S, H)
    requires M[r][i].Node? ==> t' == Remove(t, M[r][i].node) && S' == S && H' == H
    requires M[r][i].Sub? ==> (M[r][i].range in M &&
      t' == RemoveAll(t, Flat(M, L, M[r][i].range)) &&
      S' == Unflag(S, M, Desc(M, L, M[r][i].range)) &&
      H' == H + Hooks(M, L, A, M[r][i].range, p, OnDetach))
    ensures DetachedPrefix(M, L, A, r, i + 1, p, t0, S0, H0, t', S', H')
  {
    var ms := M[r];
    var m := ms[i];
    var pre, pre1 := ms[..i], ms[..i + 1];
    SplitAt(M, L, A, r, i, p, OnDetach);
    var a, b := FlatOf(M, L, pre, L[r]), FlatOf(M, L, [m], L[r]);
    assert t' == RemoveAll(t0, FlatOf(M, L, pre1, L[r])) by {
      RemoveAllAppend(t0, a, b);
      if m.Node? {
        assert RemoveAll(t, b) == RemoveAll(Remove(t, m.node), []);
      }
    }
    assert S' == Unflag(S0, M, DescOf(M, L, pre1, L[r])) by {
      if m.Sub? {
        UnflagTwice(S0, M, DescOf(M, L, pre, L[r]), Desc(M, L, m.range));
      } else {
        assert DescOf(M, L, pre1, L[r]) == DescOf(M, L, pre, L[r]);
      }
    }
    assert H' == H0 + HooksOf(M, L, A, pre1, L[r], p, OnDetach) by {
      Assoc3(H0, HooksOf(M, L, A, pre, L[r], p, OnDetach), HooksOf(M, L, A, [m], L[r], p, OnDetach));
    }
  }

  /** A nested range's first node is a node of every member list that
      holds the nested range. */
  lemma {:induction false} SharedNode(M: Members, L: Levels, r: RangeId, i: nat, d: RangeId)
    requires Ranked(M, L) && r in M && i < |M[r]| && M[r][i].Sub? && M[r][i].range in M
    requires d in Desc(M, L, M[r][i].range)
    ensures Below(M, L, M[r][..i], L[r])
    ensures d in M && Flat(M, L, d)[0] in Flat(M, L, M[r][i].range)
    ensures d in DescOf(M, L, M[r][..i], L[r]) ==> Flat(M, L, d)[0] in FlatOf(M, L, M[r][..i], L[r])
  {
    SplitAt(M, L, A0(M), r, i, Element(0), OnAttach);
    Within(M, L, M[r][i].range, d);
    if d in DescOf(M, L, M[r][..i], L[r]) {
      WithinOf(M, L, M[r][..i], L[r], d);
    }
  }

  /** Augmenter lists with no augmenters, for lemmas that do not look at
      hook calls. */
  ghost function A0(M: Members): (A: map<RangeId, seq<AugmenterId>>)
    ensures M.Keys <= A.Keys
  {
    map x | x in M :: []
  }

  /** In a range whose nodes are all different, a nested range shares no
      range with the members before it, and its own nodes are all
      different. */
  lemma {:induction false} NestedApart(M: Members, L: Levels, r: RangeId, i: nat)
    requires Ranked(M, L) && r in M && i < |M[r]| && M[r][i].Sub?
    requires NoDup(Flat(M, L, r))
    ensures M[r][i].range in M && Below(M, L, M[r][..i], L[r])
    ensures forall d | d in Desc(M, L, M[r][i].range) :: d !in DescOf(M, L, M[r][..i], L[r])
    ensures NoDup(Flat(M, L, M[r][i].range))
  {
    var ms := M[r];
    var q := ms[i].range;
    SplitAt(M, L, A0(M), r, i, Element(0), OnAttach);
    var a, f, c := FlatOf(M, L, ms[..i], L[r]), Flat(M, L, q), FlatOf(M, L, ms[i + 1..], L[r]);
    assert Flat(M, L, r) == a + f + c;
    NoDupAppend(a + f, c);
    NoDupAppend(a, f);
    forall d | d in Desc(M, L, q) ensures d !in DescOf(M, L, ms[..i], L[r]) {
      SharedNode(M, L, r, i, d);
    }
  }

  lemma {:induction false} ReflagNone(S: map<RangeId, Status>, M: Members, p: NodeId)
    ensures Reflag(S, M, {}, p) == S
  {
  }

  lemma {:induction false} UnflagNone(S: map<RangeId, Status>, M: Members)
    ensures Unflag(S, M, {}) == S
  {
  }

  /** Detaching other ranges keeps the ranges of `X` attached under `p`. */
  lemma {:induction false} UnflagUnder(S: map<RangeId, Status>, M: Members, D: set<RangeId>, X: set<RangeId>, p: NodeId)
    requires AllUnder(S, X, p) && forall d | d in X :: d !in D
    ensures AllUnder(Unflag(S, M, D), X, p)
  {
  }
}
