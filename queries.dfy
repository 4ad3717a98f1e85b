/** `containsElement` and `containsRange` (packages/blaze/domrange.js:299-346):
    walk host parents up to the range's parent element, then follow the
    `parentRange` back-pointers up towards the range. */
module Queries {
  import opened Util
  import opened HostTree
  import opened Ranges
  import opened Engine
  import opened BackLinks

  /** The ancestor-or-self of `n` whose parent is `p`, when `p` is an
      ancestor of `n` (domrange.js:313-314). */
  ghost function Top(t: Tree, p: NodeId, n: NodeId, fuel: nat): (a: NodeId)
    requires AncestorWithin(t, p, n, fuel)
    ensures a in t.parentNode && t.parentNode[a] == p
    decreases fuel
  {
    if t.parentNode[n] == p then n else Top(t, p, t.parentNode[n], fuel - 1)
  }

  /** The range a range points at with `parentRange`; a range whose
      pointer was never set points at none. */
  function Up(b: Links, x: RangeId): Option<RangeId> {
    if x in b.parentRange then b.parentRange[x] else None
  }

  /** The range an element points at with `$blaze_range`, if any. */
  function RangeOf(b: Links, n: NodeId): Option<RangeId> {
    if n in b.blazeRange then b.blazeRange[n] else None
  }

  /** Following `parentRange` from `x` reaches `r`; `x` itself counts.
      The back-pointers name ranges that hold the pointing range, and so
      lead upwards in level, which bounds the walk. */
  ghost function Reaches(M: Members, L: Levels, top: nat, b: Links, x: Option<RangeId>, r: RangeId): bool
    requires Ranked(M, L) && LevelsBelow(L, top) && BackPointers(M, b)
    requires x.Some? ==> x.value in M
    decreases if x.Some? then top + 1 - L[x.value] else 0
  {
    x.Some? && (x.value == r || Reaches(M, L, top, b, Up(b, x.value), r))
  }

  /** What `containsElement(elem)` answers: it throws on a detached range;
      otherwise `elem` must lie strictly below the range's parent element,
      and the `parentRange` walk from the range of its ancestor at the
      range's level must reach the range. */
  ghost function ElementIn(M: Members, L: Levels, top: nat, S: map<RangeId, Status>, t: Tree, b: Links,
                           r: RangeId, elem: NodeId): Result<bool>
    requires Ranked(M, L) && LevelsBelow(L, top) && BackPointers(M, b) && r in M && M.Keys <= S.Keys
    requires S[r].attached ==> S[r].parentElement.Some?
  {
    if !S[r].attached then Err(NotAttached)
    else
      var p := S[r].parentElement.value;
      if !ElementContains(t, p, elem) then Ok(false)
      else Ok(Reaches(M, L, top, b, RangeOf(b, Top(t, p, elem, |t.parentNode|)), r))
  }

  /** `containsElement` (domrange.js:299-321). */
  method ContainsElement(M: Members, ghost L: Levels, ghost top: nat, S: map<RangeId, Status>, t: Tree, b: Links,
                         r: RangeId, elem: NodeId) returns (res: Result<bool>)
    requires Ranked(M, L) && LevelsBelow(L, top) && BackPointers(M, b) && r in M && M.Keys <= S.Keys
    requires S[r].attached ==> S[r].parentElement.Some?
    ensures res == ElementIn(M, L, top, S, t, b, r, elem)
    ensures res == Ok(true) ==> elem != S[r].parentElement.value
  {
    if !S[r].attached {
      return Err(NotAttached);
    }
    var p := S[r].parentElement.value;
    if !ElementContains(t, p, elem) {
      return Ok(false);
    }
    var e := elem;
    ghost var fuel: nat := |t.parentNode|;
    while t.parentNode[e] != p
      invariant AncestorWithin(t, p, e, fuel)
      invariant Top(t, p, e, fuel) == Top(t, p, elem, |t.parentNode|)
      decreases fuel
    {
      e, fuel := t.parentNode[e], fuel - 1;
    }
    var range := RangeOf(b, e);
    while range.Some? && range.value != r
      invariant range.Some? ==> range.value in M
      invariant Reaches(M, L, top, b, range, r) == Reaches(M, L, top, b, RangeOf(b, e), r)
      decreases if range.Some? then top + 1 - L[range.value] else 0
    {
      range := Up(b, range.value);
    }
    return Ok(range == Some(r));
  }

  /** What `containsRange(q)` answers: it throws on a detached range; a
      detached `q` is not contained; a `q` under another parent element is
      contained when that element is; otherwise `q` must not be the range
      itself and the `parentRange` walk from `q` must reach the range. */
  ghost function RangeIn(M: Members, L: Levels, top: nat, S: map<RangeId, Status>, t: Tree, b: Links,
                         r: RangeId, q: RangeId): Result<bool>
    requires Ranked(M, L) && LevelsBelow(L, top) && BackPointers(M, b) && r in M && q in M && M.Keys <= S.Keys
    requires S[r].attached ==> S[r].parentElement.Some?
    requires S[q].attached ==> S[q].parentElement.Some?
  {
    if !S[r].attached then Err(NotAttached)
    else if !S[q].attached then Ok(false)
    else if S[q].parentElement != S[r].parentElement then ElementIn(M, L, top, S, t, b, r, S[q].parentElement.value)
    else Ok(q != r && Reaches(M, L, top, b, Some(q), r))
  }

  /** `containsRange` (domrange.js:323-346). A range never contains
      itself. */
  method ContainsRange(M: Members, ghost L: Levels, ghost top: nat, S: map<RangeId, Status>, t: Tree, b: Links,
                       r: RangeId, q: RangeId) returns (res: Result<bool>)
    requires Ranked(M, L) && LevelsBelow(L, top) && BackPointers(M, b) && r in M && q in M && M.Keys <= S.Keys
    requires S[r].attached ==> S[r].parentElement.Some?
    requires S[q].attached ==> S[q].parentElement.Some?
    ensures res == RangeIn(M, L, top, S, t, b, r, q)
    ensures q == r ==> res != Ok(true)
  {
    if !S[r].attached {
      return Err(NotAttached);
    }
    if !S[q].attached {
      return Ok(false);
    }
    if S[q].parentElement != S[r].parentElement {
      res := ContainsElement(M, L, top, S, t, b, r, S[q].parentElement.value);
      return;
    }
    if q == r {
      return Ok(false);
    }
    var range := Some(q);
    while range.Some? && range.value != r
      invariant range.Some? ==> range.value in M
      invariant Reaches(M, L, top, b, range, r) == Reaches(M, L, top, b, Some(q), r)
      decreases if range.Some? then top + 1 - L[range.value] else 0
    {
      range := Up(b, range.value);
    }
    return Ok(range == Some(r));
  }

  /** The `parentRange` walk only reaches `r` from a range nested in `r`. */
  lemma {:induction false} ReachesNested(M: Members, L: Levels, top: nat, b: Links, x: RangeId, r: RangeId)
    requires Ranked(M, L) && LevelsBelow(L, top) && BackPointers(M, b) && x in M && r in M
    requires Reaches(M, L, top, b, Some(x), r)
    ensures x in Desc(M, L, r)
    decreases top + 1 - L[x]
  {
    if x != r {
      var y := Up(b, x).value;
      ReachesNested(M, L, top, b, y, r);
      SubInDescOf(M, L, M[y], L[y], x);
      Within(M, L, r, y);
    }
  }

  /** Every nested range's `parentRange` names the range that holds it:
      the ranges form a tree and no pointer is stale. */
  ghost predicate Exact(M: Members, b: Links) {
    forall y, q | y in M && Sub(q) in M[y] :: q in b.parentRange && b.parentRange[q] == Some(y)
  }

  /** Every element member's `$blaze_range` names the range that holds
      it. */
  ghost predicate ExactElems(M: Members, b: Links) {
    forall y, n | y in M && Node(n) in M[y] && n.Element? :: n in b.blazeRange && b.blazeRange[n] == Some(y)
  }

  /** With exact back-pointers the walk reaches `r` from every range nested
      in `r`. */
  lemma {:induction false} NestedReaches(M: Members, L: Levels, top: nat, b: Links, x: RangeId, r: RangeId)
    requires Ranked(M, L) && LevelsBelow(L, top) && BackPointers(M, b) && Exact(M, b) && r in M
    requires x in Desc(M, L, r)
    ensures x in M && Reaches(M, L, top, b, Some(x), r)
    decreases L[r], 1
  {
    DescLevel(M, L, r, x);
    if x != r {
      NestedBelowReaches(M, L, top, b, x, r);
    }
  }

  /** The step of `NestedReaches` for a range strictly inside `r`: the walk
      reaches the member of `r` that holds it, whose pointer names `r`. */
  lemma {:induction false} NestedBelowReaches(M: Members, L: Levels, top: nat, b: Links, x: RangeId, r: RangeId)
    requires Ranked(M, L) && LevelsBelow(L, top) && BackPointers(M, b) && Exact(M, b) && r in M && x in M
    requires x in Desc(M, L, r) && x != r
    ensures Reaches(M, L, top, b, Some(x), r)
    decreases L[r], 0
  {
    var q := NestedVia(M, L, M[r], L[r], x);
    assert Up(b, q) == Some(r) by {
      assert Sub(q) in M[r];
    }
    NestedReaches(M, L, top, b, x, q);
    ReachesThen(M, L, top, b, x, q, r);
  }

  /** A range nested in a member list is nested in one of its members. */
  lemma {:induction false} NestedVia(M: Members, L: Levels, ms: seq<Member>, bound: nat, x: RangeId) returns (q: RangeId)
    requires Ranked(M, L) && Below(M, L, ms, bound) && x in DescOf(M, L, ms, bound)
    ensures Sub(q) in ms && q in M && L[q] < bound && x in Desc(M, L, q)
    decreases |ms|
  {
    assert ms[0] in ms;
    if ms[0].Sub? && x in Desc(M, L, ms[0].range) {
      q := ms[0].range;
    } else {
      q := NestedVia(M, L, ms[1..], bound, x);
      assert Sub(q) in ms[1..];
    }
  }

  /** A walk that reaches `q`, whose pointer names `r`, reaches `r`. */
  lemma {:induction false} ReachesThen(M: Members, L: Levels, top: nat, b: Links, x: RangeId, q: RangeId, r: RangeId)
    requires Ranked(M, L) && LevelsBelow(L, top) && BackPointers(M, b) && x in M && q in M && r in M
    requires Reaches(M, L, top, b, Some(x), q) && Up(b, q) == Some(r)
    ensures Reaches(M, L, top, b, Some(x), r)
    decreases top + 1 - L[x]
  {
    if x != q && x != r {
      ReachesThen(M, L, top, b, Up(b, x).value, q, r);
    }
  }

  /** `containsElement` answers true only for an element lying below one
      of the range's own nodes, at the range's level of the host tree. */
  lemma {:induction false} ElementInSound(M: Members, L: Levels, top: nat, S: map<RangeId, Status>, t: Tree, b: Links,
                                          r: RangeId, elem: NodeId)
    requires Ranked(M, L) && LevelsBelow(L, top) && BackPointers(M, b) && r in M && M.Keys <= S.Keys
    requires S[r].attached && S[r].parentElement.Some?
    requires ElementIn(M, L, top, S, t, b, r, elem) == Ok(true)
    ensures var p := S[r].parentElement.value;
      ElementContains(t, p, elem) && Top(t, p, elem, |t.parentNode|).Element? && Top(t, p, elem, |t.parentNode|) in Flat(M, L, r)
  {
    var p := S[r].parentElement.value;
    var a := Top(t, p, elem, |t.parentNode|);
    var x := RangeOf(b, a).value;
    ReachesNested(M, L, top, b, x, r);
    NodeInFlatOf(M, L, M[x], L[x], a);
    Within(M, L, r, x);
  }

  /** With exact back-pointers, `containsElement` is true for every element
      whose ancestor at the range's level is an element among the range's
      nodes. */
  lemma {:induction false} ElementInComplete(M: Members, L: Levels, top: nat, S: map<RangeId, Status>, t: Tree, b: Links,
                                             r: RangeId, elem: NodeId)
    requires Ranked(M, L) && LevelsBelow(L, top) && BackPointers(M, b) && r in M && M.Keys <= S.Keys
    requires Exact(M, b) && ExactElems(M, b)
    requires S[r].attached && S[r].parentElement.Some?
    ensures var p := S[r].parentElement.value;
      ElementContains(t, p, elem) && Top(t, p, elem, |t.parentNode|).Element? && Top(t, p, elem, |t.parentNode|) in Flat(M, L, r) ==>
      ElementIn(M, L, top, S, t, b, r, elem) == Ok(true)
  {
    var p := S[r].parentElement.value;
    if ElementContains(t, p, elem) {
      var a := Top(t, p, elem, |t.parentNode|);
      if a.Element? && a in Flat(M, L, r) {
        OwnerReaches(M, L, top, b, r, a);
      }
    }
  }

  /** With exact back-pointers the walk from an element among the nodes of
      `r` reaches `r`. */
  lemma OwnerReaches(M: Members, L: Levels, top: nat, b: Links, r: RangeId, a: NodeId)
    requires Ranked(M, L) && LevelsBelow(L, top) && BackPointers(M, b) && r in M
    requires Exact(M, b) && ExactElems(M, b)
    requires a.Element? && a in Flat(M, L, r)
    ensures Reaches(M, L, top, b, RangeOf(b, a), r)
  {
    var x := Owner(M, L, r, a);
    assert RangeOf(b, a) == Some(x);
    NestedReaches(M, L, top, b, x, r);
  }

  /** Under the same parent element, `containsRange(q)` is true exactly
      when `q` is a range other than `r` nested in `r`, provided every
      nested range's `parentRange` names the range that holds it. */
  lemma {:induction false} RangeInNested(M: Members, L: Levels, top: nat, S: map<RangeId, Status>, t: Tree, b: Links,
                                         r: RangeId, q: RangeId)
    requires Ranked(M, L) && LevelsBelow(L, top) && BackPointers(M, b) && r in M && q in M && M.Keys <= S.Keys
    requires S[r].attached && S[r].parentElement.Some? && S[q].attached && S[q].parentElement == S[r].parentElement
    ensures RangeIn(M, L, top, S, t, b, r, q) == Ok(true) ==> q != r && q in Desc(M, L, r)
    ensures Exact(M, b) && q != r && q in Desc(M, L, r) ==> RangeIn(M, L, top, S, t, b, r, q) == Ok(true)
  {
    if RangeIn(M, L, top, S, t, b, r, q) == Ok(true) {
      ReachesNested(M, L, top, b, q, r);
    }
    if Exact(M, b) && q != r && q in Desc(M, L, r) {
      NestedReaches(M, L, top, b, q, r);
    }
  }
}
