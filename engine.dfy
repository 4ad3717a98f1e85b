/** The operations of `DOMRange` (packages/blaze/domrange.js) on the state
    they touch, passed in and handed back: the host tree, the per-range
    records and the augmenter call log. `DomRange.Dom` runs them on its
    fields. */
module Engine {
  import opened Util
  import opened Seqs
  import opened HostTree
  import opened Ranges
  import opened Steps

  /** Why an operation throws: "Must be attached", the refused move, a bad
      index, the `TypeError` of reading `nextSibling` of a null node, or the
      `NotFoundError` of inserting before a node that is not a child of the
      parent. */
  datatype Error = NotAttached | BadMove | BadIndex | NullNode | NotFound

  datatype Result<T> = Ok(value: T) | Err(error: Error)

  /** What attaching and detaching rely on: a well-formed tree, an acyclic
      range graph, and records and augmenter lists for every range. */
  ghost predicate Inv(t: Tree, M: Members, L: Levels, S: map<RangeId, Status>, A: map<RangeId, seq<AugmenterId>>) {
    HostTree.Valid(t) && Ranked(M, L) && M.Keys <= A.Keys && M.Keys <= S.Keys
  }

  /** Range `r` is attached under a container `p` of the tree, every range
      nested in it is attached under `p` too, every empty range nested in
      it holds a placeholder, and no node occurs twice among its nodes: what
      detaching it, or editing it while attached, relies on. */
  ghost predicate Settled(t: Tree, M: Members, L: Levels, S: map<RangeId, Status>, r: RangeId)
    requires Ranked(M, L) && r in M && M.Keys <= S.Keys
  {
    S[r].attached ==> (S[r].parentElement.Some? && S[r].parentElement.value in t.children &&
      AllUnder(S, Desc(M, L, r), S[r].parentElement.value) && NoDup(Flat(M, L, r)) &&
      AllPlaced(M, S, DescOf(M, L, M[r], L[r])))
  }

  /** Every attached empty range holds its placeholder. */
  ghost predicate Placeholders(M: Members, S: map<RangeId, Status>) {
    forall x | x in M && x in S && S[x].attached && M[x] == [] :: S[x].emptyRangePlaceholder == Some(Placeholder(x))
  }

  /** The loop that tells each augmenter of range `r`, in order, that `r`
      was attached or detached under `p` (domrange.js:129-132, 202-203). */
  method Notify(H0: seq<HookCall>, augs: seq<AugmenterId>, r: RangeId, p: NodeId, kind: HookKind) returns (H: seq<HookCall>)
    ensures H == H0 + Calls(augs, r, p, kind)
  {
    H := H0;
    var i := 0;
    while i < |augs|
      invariant i <= |augs| && H == H0 + Calls(augs[..i], r, p, kind)
    {
      CallsSnoc(augs, i, r, p, kind);
      Assoc3(H0, Calls(augs[..i], r, p, kind), [HookCall(kind, augs[i], r, p)]);
      H := H + [HookCall(kind, augs[i], r, p)];
      i := i + 1;
    }
    assert augs[..i] == augs;
  }

  lemma {:induction false} CallsSnoc(augs: seq<AugmenterId>, i: nat, r: RangeId, p: NodeId, kind: HookKind)
    requires i < |augs|
    ensures Calls(augs[..i + 1], r, p, kind) == Calls(augs[..i], r, p, kind) + [HookCall(kind, augs[i], r, p)]
  {
    var a, b := Calls(augs[..i + 1], r, p, kind), Calls(augs[..i], r, p, kind) + [HookCall(kind, augs[i], r, p)];
    assert |a| == |b|;
    forall k | 0 <= k < |a| ensures a[k] == b[k] {
      assert augs[..i + 1][k] == augs[k];
      if k < i {
        assert augs[..i][k] == augs[k];
      }
    }
  }

  lemma {:induction false} ReflagSingle(S: map<RangeId, Status>, M: Members, r: RangeId, p: NodeId)
    requires r in S && r in M
    ensures S[r := AttachedStatus(M[r], r, p)] == Reflag(S, M, {r}, p)
  {
  }

  lemma {:induction false} UnflagSingle(S: map<RangeId, Status>, M: Members, r: RangeId)
    requires r in S && r in M
    ensures S[r := DetachedStatus(S[r], M[r])] == Unflag(S, M, {r})
  {
  }

  /** An empty range stands for its placeholder alone. */
  lemma {:induction false} EmptyRange(M: Members, L: Levels, A: map<RangeId, seq<AugmenterId>>, r: RangeId, p: NodeId, kind: HookKind)
    requires Ranked(M, L) && r in M && M[r] == [] && M.Keys <= A.Keys
    ensures Flat(M, L, r) == [Placeholder(r)]
    ensures Desc(M, L, r) == {r}
    ensures Hooks(M, L, A, r, p, kind) == Calls(A[r], r, p, kind)
  {
    assert DescOf(M, L, M[r], L[r]) == {};
    assert HooksOf(M, L, A, M[r], L[r], p, kind) == [];
    assert [] + Calls(A[r], r, p, kind) == Calls(A[r], r, p, kind);
  }

  lemma {:induction false} AttachEmpty(M: Members, L: Levels, A: map<RangeId, seq<AugmenterId>>, r: RangeId,
                                       p: NodeId, next: Option<NodeId>, move: bool, t0: Tree, S0: map<RangeId, Status>)
    requires Ranked(M, L) && r in M && M[r] == [] && M.Keys <= A.Keys && r in S0
    ensures Place(t0, Placeholder(r), p, next, move) == PlaceAll(t0, Flat(M, L, r), p, next, move)
    ensures S0[r := AttachedStatus(M[r], r, p)] == Reflag(S0, M, Desc(M, L, r), p)
    ensures Hooks(M, L, A, r, p, OnAttach) == Calls(A[r], r, p, OnAttach)
  {
    EmptyRange(M, L, A, r, p, OnAttach);
    assert PlaceAll(t0, [Placeholder(r)], p, next, move) == PlaceAll(Place(t0, Placeholder(r), p, next, move), [], p, next, move);
    ReflagSingle(S0, M, r, p);
  }

  lemma {:induction false} AttachFinish(M: Members, L: Levels, A: map<RangeId, seq<AugmenterId>>, r: RangeId,
                                        p: NodeId, next: Option<NodeId>, move: bool,
                                        t0: Tree, S0: map<RangeId, Status>, H0: seq<HookCall>,
                                        t: Tree, S: map<RangeId, Status>, H: seq<HookCall>)
    requires Ranked(M, L) && r in M && M.Keys <= A.Keys && r in S0
    requires AttachedPrefix(M, L, A, r, |M[r]|, p, next, move, t0, S0, H0, t, S, H)
    requires M[r] != []
    ensures t == PlaceAll(t0, Flat(M, L, r), p, next, move)
    ensures S[r := AttachedStatus(M[r], r, p)] == Reflag(S0, M, Desc(M, L, r), p)
    ensures H + (if move then [] else Calls(A[r], r, p, OnAttach)) == H0 + (if move then [] else Hooks(M, L, A, r, p, OnAttach))
  {
    var ms := M[r];
    assert ms[..|ms|] == ms;
    ReflagOne(S0, M, DescOf(M, L, ms, L[r]), r, p);
    if !move {
      Assoc3(H0, HooksOf(M, L, A, ms, L[r], p, OnAttach), Calls(A[r], r, p, OnAttach));
    }
  }

  /** What `_insert` of member `m` under `p` before `next` does: a host
      node is placed (inserted, or moved when `move` is set); a nested range
      is attached as `AttachRange` says, a move being refused unless it is
      attached under `p`. */
  ghost predicate MemberInserted(M: Members, L: Levels, A: map<RangeId, seq<AugmenterId>>,
                                 t0: Tree, S0: map<RangeId, Status>, H0: seq<HookCall>,
                                 m: Member, p: NodeId, next: Option<NodeId>, move: bool,
                                 res: Result<()>, t: Tree, S: map<RangeId, Status>, H: seq<HookCall>)
    requires Ranked(M, L) && M.Keys <= A.Keys && M.Keys <= S0.Keys
  {
    match m
    case Node(n) => res.Ok? && t == Place(t0, n, p, next, move) && S == S0 && H == H0
    case Sub(q) => q in M && RangeAttached(M, L, A, t0, S0, H0, q, p, next, move, res, t, S, H)
  }

  /** What attaching range `q` under `p` before `next` does: a move is
      refused unless `q` is attached under `p`; otherwise each node of `q`,
      nested ranges spliced in, is placed in order before `next`, `q` and
      every range nested in it become attached under `p`, and on a first
      attach each nested range's augmenters and then `q`'s own are told. */
  ghost predicate RangeAttached(M: Members, L: Levels, A: map<RangeId, seq<AugmenterId>>,
                                t0: Tree, S0: map<RangeId, Status>, H0: seq<HookCall>,
                                q: RangeId, p: NodeId, next: Option<NodeId>, move: bool,
                                res: Result<()>, t: Tree, S: map<RangeId, Status>, H: seq<HookCall>)
    requires Ranked(M, L) && M.Keys <= A.Keys && M.Keys <= S0.Keys && q in M
  {
    (res.Ok? <==> !move || (S0[q].attached && S0[q].parentElement == Some(p))) &&
    (res.Err? ==> res.error == BadMove && t == t0 && S == S0 && H == H0) &&
    (res.Ok? ==> t == PlaceAll(t0, Flat(M, L, q), p, next, move) && S == Reflag(S0, M, Desc(M, L, q), p) &&
                 H == H0 + (if move then [] else Hooks(M, L, A, q, p, OnAttach)))
  }

  /** `DOMRange._insert` (domrange.js:34-44): a nested range is attached
      (or moved); a host node is inserted, or moved, before `next`. */
  method InsertMember(M: Members, ghost L: Levels, A: map<RangeId, seq<AugmenterId>>,
                      t0: Tree, S0: map<RangeId, Status>, H0: seq<HookCall>,
                      m: Member, p: NodeId, next: Option<NodeId>, move: bool)
    returns (res: Result<()>, t: Tree, S: map<RangeId, Status>, H: seq<HookCall>)
    requires Inv(t0, M, L, S0, A) && p in t0.children && (m.Sub? ==> m.range in M)
    requires m.Sub? && move && S0[m.range].attached && S0[m.range].parentElement == Some(p) ==>
      AllUnder(S0, Desc(M, L, m.range), p)
    ensures Inv(t, M, L, S, A) && p in t.children
    ensures MemberInserted(M, L, A, t0, S0, H0, m, p, next, move, res, t, S, H)
    decreases if m.Sub? then L[m.range] + 1 else 0, 2
  {
    match m {
      case Node(n) =>
        PlaceAllValid(t0, [n], p, next, move);
        assert PlaceAll(t0, [n], p, next, move) == PlaceAll(Place(t0, n, p, next, move), [], p, next, move);
        res, t, S, H := Ok(()), Place(t0, n, p, next, move), S0, H0;
      case Sub(q) =>
        res, t, S, H := AttachRange(M, L, A, t0, S0, H0, q, p, next, move);
    }
  }

  /** The member loop of `attach` (domrange.js:116-120): `_insert` of each
      member in turn, all before the same `next`. */
  method InsertMembers(M: Members, ghost L: Levels, A: map<RangeId, seq<AugmenterId>>,
                       t0: Tree, S0: map<RangeId, Status>, H0: seq<HookCall>,
                       r: RangeId, p: NodeId, next: Option<NodeId>, move: bool)
    returns (t: Tree, S: map<RangeId, Status>, H: seq<HookCall>)
    requires Inv(t0, M, L, S0, A) && r in M && p in t0.children
    requires move ==> AllUnder(S0, Desc(M, L, r), p)
    ensures Inv(t, M, L, S, A) && p in t.children
    ensures AttachedPrefix(M, L, A, r, |M[r]|, p, next, move, t0, S0, H0, t, S, H)
    decreases L[r] + 1, 0
  {
    var ms := M[r];
    t, S, H := t0, S0, H0;
    var i := 0;
    assert ms[..0] == [];
    assert PlaceAll(t0, [], p, next, move) == t0;
    ReflagNone(S0, M, p);
    while i < |ms|
      invariant i <= |ms| && Inv(t, M, L, S, A) && p in t.children
      invariant AttachedPrefix(M, L, A, r, i, p, next, move, t0, S0, H0, t, S, H)
      invariant move ==> AllUnder(S, Desc(M, L, r), p)
    {
      MemberOfRange(M, L, r, i);
      ghost var ti, Si, Hi := t, S, H;
      var inserted;
      inserted, t, S, H := InsertMember(M, L, A, t, S, H, ms[i], p, next, move);
      InsertedStep(M, L, A, r, i, p, next, move, t0, S0, H0, ti, Si, Hi, inserted, t, S, H);
      i := i + 1;
    }
  }

  /** One turn of the member loop of `attach` extends the attached prefix
      and keeps a moved range's nested ranges under `p`. */
  lemma {:induction false} InsertedStep(M: Members, L: Levels, A: map<RangeId, seq<AugmenterId>>, r: RangeId, i: nat,
                                        p: NodeId, next: Option<NodeId>, move: bool,
                                        t0: Tree, S0: map<RangeId, Status>, H0: seq<HookCall>,
                                        ti: Tree, Si: map<RangeId, Status>, Hi: seq<HookCall>,
                                        res: Result<()>, t: Tree, S: map<RangeId, Status>, H: seq<HookCall>)
    requires Ranked(M, L) && r in M && i < |M[r]| && M.Keys <= A.Keys && M.Keys <= Si.Keys
    requires AttachedPrefix(M, L, A, r, i, p, next, move, t0, S0, H0, ti, Si, Hi)
    requires move ==> AllUnder(Si, Desc(M, L, r), p)
    requires MemberInserted(M, L, A, ti, Si, Hi, M[r][i], p, next, move, res, t, S, H)
    ensures AttachedPrefix(M, L, A, r, i + 1, p, next, move, t0, S0, H0, t, S, H)
    ensures move ==> AllUnder(S, Desc(M, L, r), p)
  {
    MemberOfRange(M, L, r, i);
    if move && M[r][i].Sub? {
      ReflagUnder(Si, M, Desc(M, L, M[r][i].range), Desc(M, L, r), p);
    }
    AttachStep(M, L, A, r, i, p, next, move, t0, S0, H0, ti, Si, Hi, t, S, H);
  }

  /** `DOMRange.prototype.attach` (domrange.js:102-133). A move is refused
      unless the range is attached under the same parent element.
      Otherwise each node of the range, nested ranges spliced in, is placed
      in order before `next`; the range and every range nested in it
      become attached under `p`; on a first attach each nested range's
      augmenters and then the range's own are told. */
  method AttachRange(M: Members, ghost L: Levels, A: map<RangeId, seq<AugmenterId>>,
                     t0: Tree, S0: map<RangeId, Status>, H0: seq<HookCall>,
                     r: RangeId, p: NodeId, next: Option<NodeId>, move: bool)
    returns (res: Result<()>, t: Tree, S: map<RangeId, Status>, H: seq<HookCall>)
    requires Inv(t0, M, L, S0, A) && r in M && p in t0.children
    requires move && S0[r].attached && S0[r].parentElement == Some(p) ==> AllUnder(S0, Desc(M, L, r), p)
    ensures Inv(t, M, L, S, A) && p in t.children
    ensures RangeAttached(M, L, A, t0, S0, H0, r, p, next, move, res, t, S, H)
    decreases L[r] + 1, 1
  {
    t, S, H := t0, S0, H0;
    if move && !(S[r].attached && S[r].parentElement == Some(p)) {
      return Err(BadMove), t, S, H;
    }
    var ms := M[r];
    if ms == [] {
      AttachEmpty(M, L, A, r, p, next, move, t0, S0);
      t := Place(t, Placeholder(r), p, next, move);
      PlaceAllValid(t0, Flat(M, L, r), p, next, move);
    } else {
      t, S, H := InsertMembers(M, L, A, t0, S0, H0, r, p, next, move);
      AttachFinish(M, L, A, r, p, next, move, t0, S0, H0, t, S, H);
    }
    S := S[r := AttachedStatus(ms, r, p)];
    if !move {
      H := Notify(H, A[r], r, p, OnAttach);
    }
    return Ok(()), t, S, H;
  }

  /** What `attach(p, next, move)` called on a range does: the move check
      comes first; then a `next` that is not a child of `p` makes the first
      `insertBefore` throw `NotFoundError` before any node is placed;
      otherwise as `RangeAttached` says. */
  ghost predicate AttachCalled(M: Members, L: Levels, A: map<RangeId, seq<AugmenterId>>,
                               t0: Tree, S0: map<RangeId, Status>, H0: seq<HookCall>,
                               r: RangeId, p: NodeId, next: Option<NodeId>, move: bool,
                               res: Result<()>, t: Tree, S: map<RangeId, Status>, H: seq<HookCall>)
    requires Ranked(M, L) && M.Keys <= A.Keys && M.Keys <= S0.Keys && r in M
  {
    var refused := move && !(S0[r].attached && S0[r].parentElement == Some(p));
    (res == Err(NotFound) <==> !refused && next.Some? && next.value !in Kids(t0, p)) &&
    (res == Err(NotFound) ==> t == t0 && S == S0 && H == H0) &&
    (res != Err(NotFound) ==> RangeAttached(M, L, A, t0, S0, H0, r, p, next, move, res, t, S, H))
  }

  /** `attach(p, next, move)` called on a range (domrange.js:102-133): a
      `next` outside `p`'s children is refused up front, as `insertBefore`
      refuses it; otherwise `AttachRange`. */
  method AttachChecked(M: Members, ghost L: Levels, A: map<RangeId, seq<AugmenterId>>,
                       t0: Tree, S0: map<RangeId, Status>, H0: seq<HookCall>,
                       r: RangeId, p: NodeId, next: Option<NodeId>, move: bool)
    returns (res: Result<()>, t: Tree, S: map<RangeId, Status>, H: seq<HookCall>)
    requires Inv(t0, M, L, S0, A) && r in M && p in t0.children
    requires move && S0[r].attached && S0[r].parentElement == Some(p) ==> AllUnder(S0, Desc(M, L, r), p)
    ensures Inv(t, M, L, S, A)
    ensures AttachCalled(M, L, A, t0, S0, H0, r, p, next, move, res, t, S, H)
  {
    var refused := move && !(S0[r].attached && S0[r].parentElement == Some(p));
    if !refused && next.Some? && next.value !in Kids(t0, p) {
      return Err(NotFound), t0, S0, H0;
    }
    res, t, S, H := AttachRange(M, L, A, t0, S0, H0, r, p, next, move);
  }

  lemma {:induction false} DetachEmpty(M: Members, L: Levels, A: map<RangeId, seq<AugmenterId>>, r: RangeId,
                                       p: NodeId, t0: Tree, S0: map<RangeId, Status>)
    requires Ranked(M, L) && r in M && M[r] == [] && M.Keys <= A.Keys && r in S0
    ensures Remove(t0, Placeholder(r)) == RemoveAll(t0, Flat(M, L, r))
    ensures S0[r := DetachedStatus(S0[r], M[r])] == Unflag(S0, M, Desc(M, L, r))
    ensures Hooks(M, L, A, r, p, OnDetach) == Calls(A[r], r, p, OnDetach)
  {
    EmptyRange(M, L, A, r, p, OnDetach);
    assert RemoveAll(t0, [Placeholder(r)]) == RemoveAll(Remove(t0, Placeholder(r)), []);
    UnflagSingle(S0, M, r);
  }

  lemma {:induction false} DetachFinish(M: Members, L: Levels, A: map<RangeId, seq<AugmenterId>>, r: RangeId, p: NodeId,
                                        t0: Tree, S0: map<RangeId, Status>, H0: seq<HookCall>,
                                        t: Tree, S: map<RangeId, Status>, H: seq<HookCall>)
    requires Ranked(M, L) && r in M && M.Keys <= A.Keys && r in S0
    requires DetachedPrefix(M, L, A, r, |M[r]|, p, t0, S0, H0, t, S, H)
    requires M[r] != []
    ensures t == RemoveAll(t0, Flat(M, L, r))
    ensures S[r := DetachedStatus(S[r], M[r])] == Unflag(S0, M, Desc(M, L, r))
    ensures H + Calls(A[r], r, p, OnDetach) == H0 + Hooks(M, L, A, r, p, OnDetach)
  {
    var ms := M[r];
    assert ms[..|ms|] == ms;
    UnflagOne(S0, M, DescOf(M, L, ms, L[r]), r);
    Assoc3(H0, HooksOf(M, L, A, ms, L[r], p, OnDetach), Calls(A[r], r, p, OnDetach));
  }

  /** What `_remove` of member `m` does: a host node leaves the tree; a
      nested range is detached as `DetachRange` says, which is refused when
      it is not attached. */
  ghost predicate MemberDropped(M: Members, L: Levels, A: map<RangeId, seq<AugmenterId>>,
                                t0: Tree, S0: map<RangeId, Status>, H0: seq<HookCall>, m: Member,
                                res: Result<()>, t: Tree, S: map<RangeId, Status>, H: seq<HookCall>)
    requires Ranked(M, L) && M.Keys <= A.Keys && M.Keys <= S0.Keys
  {
    match m
    case Node(n) => res.Ok? && t == Remove(t0, n) && S == S0 && H == H0
    case Sub(q) => q in M && RangeDetached(M, L, A, t0, S0, H0, q, res, t, S, H)
  }

  /** An attached empty range whose placeholder field is null: detaching
      it reads `removeChild(null)` (domrange.js:195-196). */
  ghost predicate NullHolder(M: Members, S: map<RangeId, Status>, q: RangeId)
    requires q in M && q in S
  {
    S[q].attached && M[q] == [] && S[q].emptyRangePlaceholder.None?
  }

  /** What detaching range `q` does: a detached range is refused, and an
      attached empty one without a placeholder throws on its null
      placeholder, both with nothing changed; otherwise each node of `q` is taken out of the tree, `q` and every
      range nested in it become detached, and each nested range's
      augmenters and then `q`'s own are told, with the parent element `q`
      had. */
  ghost predicate RangeDetached(M: Members, L: Levels, A: map<RangeId, seq<AugmenterId>>,
                                t0: Tree, S0: map<RangeId, Status>, H0: seq<HookCall>, q: RangeId,
                                res: Result<()>, t: Tree, S: map<RangeId, Status>, H: seq<HookCall>)
    requires Ranked(M, L) && M.Keys <= A.Keys && M.Keys <= S0.Keys && q in M
  {
    (res.Ok? <==> S0[q].attached && !NullHolder(M, S0, q)) &&
    (res.Err? ==> res.error == (if S0[q].attached then NullNode else NotAttached) && t == t0 && S == S0 && H == H0) &&
    (res.Ok? ==> S0[q].parentElement.Some? && t == RemoveAll(t0, Flat(M, L, q)) && S == Unflag(S0, M, Desc(M, L, q)) &&
                 H == H0 + Hooks(M, L, A, q, S0[q].parentElement.value, OnDetach))
  }

  /** `DOMRange._remove` (domrange.js:46-53): a nested range is detached;
      a host node is taken out of the tree. */
  method DropMember(M: Members, ghost L: Levels, A: map<RangeId, seq<AugmenterId>>,
                    t0: Tree, S0: map<RangeId, Status>, H0: seq<HookCall>, m: Member)
    returns (res: Result<()>, t: Tree, S: map<RangeId, Status>, H: seq<HookCall>)
    requires Inv(t0, M, L, S0, A) && (m.Sub? ==> m.range in M)
    requires m.Sub? && S0[m.range].attached ==> (S0[m.range].parentElement.Some? &&
      AllUnder(S0, Desc(M, L, m.range), S0[m.range].parentElement.value) && NoDup(Flat(M, L, m.range)) &&
      AllPlaced(M, S0, Desc(M, L, m.range)))
    ensures Inv(t, M, L, S, A)
    ensures MemberDropped(M, L, A, t0, S0, H0, m, res, t, S, H)
    decreases if m.Sub? then L[m.range] + 1 else 0, 2
  {
    match m {
      case Node(n) =>
        RemoveAllValid(t0, [n]);
        assert RemoveAll(t0, [n]) == RemoveAll(Remove(t0, n), []);
        res, t, S, H := Ok(()), Remove(t0, n), S0, H0;
      case Sub(q) =>
        res, t, S, H := DetachRange(M, L, A, t0, S0, H0, q);
    }
  }

  /** The member loop of `detach` (domrange.js:190-193): `_remove` of each
      member in turn. */
  method DropMembers(M: Members, ghost L: Levels, A: map<RangeId, seq<AugmenterId>>,
                     t0: Tree, S0: map<RangeId, Status>, H0: seq<HookCall>, r: RangeId, p: NodeId)
    returns (t: Tree, S: map<RangeId, Status>, H: seq<HookCall>)
    requires Inv(t0, M, L, S0, A) && r in M
    requires AllUnder(S0, Desc(M, L, r), p) && NoDup(Flat(M, L, r)) && AllPlaced(M, S0, DescOf(M, L, M[r], L[r]))
    ensures Inv(t, M, L, S, A)
    ensures DetachedPrefix(M, L, A, r, |M[r]|, p, t0, S0, H0, t, S, H)
    decreases L[r] + 1, 0
  {
    var ms := M[r];
    t, S, H := t0, S0, H0;
    var i := 0;
    assert ms[..0] == [];
    assert RemoveAll(t0, []) == t0;
    UnflagNone(S0, M);
    while i < |ms|
      invariant i <= |ms| && Inv(t, M, L, S, A)
      invariant DetachedPrefix(M, L, A, r, i, p, t0, S0, H0, t, S, H)
    {
      DetachReady(M, L, r, i, p, S0, S);
      ghost var ti, Si, Hi := t, S, H;
      var dropped;
      dropped, t, S, H := DropMember(M, L, A, t, S, H, ms[i]);
      DetachStep(M, L, A, r, i, p, t0, S0, H0, ti, Si, Hi, t, S, H);
      i := i + 1;
    }
  }

  /** Before member `i` of `r` is detached, a nested range there is still
      attached under `p`, with every range nested in it, and holds its
      placeholder when empty. */
  lemma {:induction false} DetachReady(M: Members, L: Levels, r: RangeId, i: nat, p: NodeId,
                                       S0: map<RangeId, Status>, S: map<RangeId, Status>)
    requires Ranked(M, L) && r in M && i < |M[r]|
    requires AllUnder(S0, Desc(M, L, r), p) && NoDup(Flat(M, L, r)) && AllPlaced(M, S0, DescOf(M, L, M[r], L[r]))
    requires Below(M, L, M[r][..i], L[r]) && S == Unflag(S0, M, DescOf(M, L, M[r][..i], L[r]))
    ensures M[r][i].Sub? ==> var q := M[r][i].range;
      q in M && q in S && S[q].attached && S[q].parentElement == Some(p) && AllUnder(S, Desc(M, L, q), p) && NoDup(Flat(M, L, q)) &&
      AllPlaced(M, S, Desc(M, L, q)) && !NullHolder(M, S, q)
  {
    MemberOfRange(M, L, r, i);
    if M[r][i].Sub? {
      var q := M[r][i].range;
      NestedApart(M, L, r, i);
      UnflagUnder(S0, M, DescOf(M, L, M[r][..i], L[r]), Desc(M, L, q), p);
      if r in Desc(M, L, q) {
        DescLevel(M, L, q, r);
      }
      UnflagPlaced(S0, M, DescOf(M, L, M[r][..i], L[r]), Desc(M, L, q));
      assert q in Desc(M, L, q);
    }
  }

  /** `DOMRange.prototype.detach` (domrange.js:184-204). A detached range
      is refused, and an empty one whose placeholder field is null throws
      at `removeChild(null)`. Otherwise each node of the range is taken out of the
      tree, the range and every range nested in it become detached, and
      each nested range's augmenters and then the range's own are told,
      with the parent element the range had. */
  method DetachRange(M: Members, ghost L: Levels, A: map<RangeId, seq<AugmenterId>>,
                     t0: Tree, S0: map<RangeId, Status>, H0: seq<HookCall>, r: RangeId)
    returns (res: Result<()>, t: Tree, S: map<RangeId, Status>, H: seq<HookCall>)
    requires Inv(t0, M, L, S0, A) && r in M
    requires S0[r].attached ==> (S0[r].parentElement.Some? &&
      AllUnder(S0, Desc(M, L, r), S0[r].parentElement.value) && NoDup(Flat(M, L, r)) &&
      AllPlaced(M, S0, DescOf(M, L, M[r], L[r])))
    ensures Inv(t, M, L, S, A)
    ensures RangeDetached(M, L, A, t0, S0, H0, r, res, t, S, H)
    decreases L[r] + 1, 1
  {
    t, S, H := t0, S0, H0;
    if !S[r].attached {
      return Err(NotAttached), t, S, H;
    }
    var p := S[r].parentElement.value;
    var ms := M[r];
    if ms == [] && S[r].emptyRangePlaceholder.None? {
      return Err(NullNode), t, S, H;
    }
    if ms == [] {
      DetachEmpty(M, L, A, r, p, t0, S0);
      t := Remove(t, Placeholder(r));
      RemoveAllValid(t0, Flat(M, L, r));
    } else {
      t, S, H := DropMembers(M, L, A, t0, S0, H0, r, p);
      DetachFinish(M, L, A, r, p, t0, S0, H0, t, S, H);
    }
    S := S[r := DetachedStatus(S[r], ms)];
    H := Notify(H, A[r], r, p, OnDetach);
    return Ok(()), t, S, H;
  }

  /** A first attach of a range whose nodes are not yet in the document
      lays them out under `p` before `next`, as one contiguous run in
      order, and leaves the rest of `p`'s children as they were. */
  lemma {:induction false} AttachLaysRun(M: Members, L: Levels, A: map<RangeId, seq<AugmenterId>>,
                                         t0: Tree, S0: map<RangeId, Status>, H0: seq<HookCall>,
                                         r: RangeId, p: NodeId, next: Option<NodeId>,
                                         res: Result<()>, t: Tree, S: map<RangeId, Status>, H: seq<HookCall>)
    requires Inv(t0, M, L, S0, A) && r in M && p in t0.children
    requires RangeAttached(M, L, A, t0, S0, H0, r, p, next, false, res, t, S, H)
    requires NoDup(Flat(M, L, r)) && (forall n | n in Flat(M, L, r) :: n !in t0.parentNode)
    requires next.Some? ==> next.value !in Flat(M, L, r)
    ensures res.Ok? && Kids(t, p) == InsertBefore(Kids(t0, p), Flat(M, L, r), next)
    ensures Run(Kids(t, p), Flat(M, L, r))
  {
    var f, s := Flat(M, L, r), t0.children[p];
    PlaceAllFresh(t0, f, p, next);
    PlaceAllValid(t0, f, p, next, false);
    var k := Anchor(s, next);
    assert t.children[p] == s[..k] + f + s[k..];
    RunIn(s[..k], f, s[k..], f);
  }

  /** Moving an attached range whose nodes are all children of `p` takes
      them out and lays them out again before `next`, as one contiguous
      run in order. */
  lemma {:induction false} MoveLaysRun(M: Members, L: Levels, A: map<RangeId, seq<AugmenterId>>,
                                       t0: Tree, S0: map<RangeId, Status>, H0: seq<HookCall>,
                                       r: RangeId, p: NodeId, next: Option<NodeId>,
                                       res: Result<()>, t: Tree, S: map<RangeId, Status>, H: seq<HookCall>)
    requires Inv(t0, M, L, S0, A) && r in M && p in t0.children
    requires S0[r].attached && S0[r].parentElement == Some(p)
    requires RangeAttached(M, L, A, t0, S0, H0, r, p, next, true, res, t, S, H)
    requires NoDup(Flat(M, L, r)) && (forall n | n in Flat(M, L, r) :: n in t0.children[p])
    requires next.Some? ==> next.value !in Flat(M, L, r)
    ensures res.Ok? && Kids(t, p) == MoveBefore(Kids(t0, p), Flat(M, L, r), next)
    ensures Run(Kids(t, p), Flat(M, L, r))
  {
    var f := Flat(M, L, r);
    PlaceAllMove(t0, f, p, next, true);
    PlaceAllValid(t0, f, p, next, true);
    var w := Without(t0.children[p], f);
    var k := Anchor(w, next);
    assert t.children[p] == w[..k] + f + w[k..];
    RunIn(w[..k], f, w[k..], f);
  }

  /** Moving an attached empty range whose placeholder has left the
      document inserts its placeholder before `next` again, as a fresh
      placeholder is inserted in that case (domrange.js:121-124). */
  lemma {:induction false} MoveRestoresPlaceholder(M: Members, L: Levels, A: map<RangeId, seq<AugmenterId>>,
                                                   t0: Tree, S0: map<RangeId, Status>, H0: seq<HookCall>,
                                                   r: RangeId, p: NodeId, next: Option<NodeId>,
                                                   res: Result<()>, t: Tree, S: map<RangeId, Status>, H: seq<HookCall>)
    requires Inv(t0, M, L, S0, A) && r in M && M[r] == [] && p in t0.children
    requires S0[r].attached && S0[r].parentElement == Some(p) && Placeholder(r) !in t0.parentNode
    requires next != Some(Placeholder(r))
    requires RangeAttached(M, L, A, t0, S0, H0, r, p, next, true, res, t, S, H)
    ensures res.Ok? && Kids(t, p) == InsertBefore(Kids(t0, p), [Placeholder(r)], next)
    ensures S[r] == Status(true, Some(p), Some(Placeholder(r))) && H == H0
  {
    EmptyRange(M, L, A, r, p, OnAttach);
    var ph := [Placeholder(r)];
    assert PlaceAll(t0, ph, p, next, true) == PlaceAll(t0, ph, p, next, false);
    PlaceAllFresh(t0, ph, p, next);
    ReflagAt(S0, M, Desc(M, L, r), r, p);
  }

  lemma ReflagAt(S: map<RangeId, Status>, M: Members, D: set<RangeId>, r: RangeId, p: NodeId)
    requires r in S && r in D && r in M
    ensures Reflag(S, M, D, p)[r] == AttachedStatus(M[r], r, p)
  {
  }

  /** Detaching a range whose nodes form a run of its parent element's
      children takes exactly that run out, unless the range is empty with
      no placeholder. */
  lemma {:induction false} DetachLiftsRun(M: Members, L: Levels, A: map<RangeId, seq<AugmenterId>>,
                                          t0: Tree, S0: map<RangeId, Status>, H0: seq<HookCall>,
                                          r: RangeId, p: NodeId, a: seq<NodeId>, b: seq<NodeId>,
                                          res: Result<()>, t: Tree, S: map<RangeId, Status>, H: seq<HookCall>)
    requires Inv(t0, M, L, S0, A) && r in M && S0[r].attached && S0[r].parentElement == Some(p)
    requires RangeDetached(M, L, A, t0, S0, H0, r, res, t, S, H)
    requires p in t0.children && t0.children[p] == a + Flat(M, L, r) + b
    ensures res.Ok? <==> !NullHolder(M, S0, r)
    ensures res.Ok? ==> Kids(t, p) == a + b
  {
    RemoveAllRun(t0, p, a, Flat(M, L, r), b);
  }

  /** Attaching a range whose nodes are not yet in the document and then
      detaching it gives back the document as it was; the range and every
      range nested in it end detached with no placeholder, the other
      records are as they were, and the augmenters hear of the attach and
      then of the detach. */
  lemma {:induction false} AttachThenDetach(M: Members, L: Levels, A: map<RangeId, seq<AugmenterId>>,
                                            t0: Tree, S0: map<RangeId, Status>, H0: seq<HookCall>,
                                            r: RangeId, p: NodeId, next: Option<NodeId>,
                                            res1: Result<()>, t1: Tree, S1: map<RangeId, Status>, H1: seq<HookCall>,
                                            res2: Result<()>, t2: Tree, S2: map<RangeId, Status>, H2: seq<HookCall>)
    requires Inv(t0, M, L, S0, A) && r in M && p in t0.children
    requires NoDup(Flat(M, L, r)) && (forall n | n in Flat(M, L, r) :: n !in t0.parentNode)
    requires next.Some? ==> next.value !in Flat(M, L, r)
    requires RangeAttached(M, L, A, t0, S0, H0, r, p, next, false, res1, t1, S1, H1)
    requires Inv(t1, M, L, S1, A)
    requires RangeDetached(M, L, A, t1, S1, H1, r, res2, t2, S2, H2)
    ensures res1.Ok? && res2.Ok? && t2 == t0
    ensures S2.Keys == S0.Keys
    ensures forall x | x in S0 :: S2[x] == if x in Desc(M, L, r) then Status(false, None, None) else S0[x]
    ensures H2 == H0 + Hooks(M, L, A, r, p, OnAttach) + Hooks(M, L, A, r, p, OnDetach)
  {
    assert r in Desc(M, L, r);
    ReflagAt(S0, M, Desc(M, L, r), r, p);
    PlaceThenRemoveAllTree(t0, Flat(M, L, r), p, next);
    forall x | x in S0 && x in Desc(M, L, r) ensures S2[x] == Status(false, None, None) {
      DescLevel(M, L, r, x);
    }
  }
}
