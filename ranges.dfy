/** What a set of DOMRanges denotes, as functions of their member lists.
    A range's members are host nodes and other ranges; the nodes the range
    stands for in the host tree are its members' nodes, in order, with
    nested ranges spliced in (`Flat`), or its own empty-range placeholder
    when it has no members. Member lists are kept in a map from range
    identity to members; a ghost level per range, strictly above the level
    of every range it holds, is what makes the recursion well founded. */
module Ranges {
  import opened Util
  import opened Seqs
  import opened HostTree

  type RangeId = nat
  type AugmenterId = nat
  type CallbackId = nat

  /** An entry of a range's member array: a host node or a nested range. */
  datatype Member = Node(node: NodeId) | Sub(range: RangeId)

  /** The per-range fields `attached`, `parentElement` and
      `emptyRangePlaceholder`. */
  datatype Status = Status(attached: bool, parentElement: Option<NodeId>, emptyRangePlaceholder: Option<NodeId>)

  /** A call of an augmenter's `attach(range, element)` or
      `detach(range, element)`. */
  datatype HookKind = OnAttach | OnDetach
  datatype HookCall = HookCall(kind: HookKind, augmenter: AugmenterId, range: RangeId, element: NodeId)

  type Members = map<RangeId, seq<Member>>
  type Levels = map<RangeId, nat>

  /** Every nested range exists and sits strictly below the range that holds
      it: the range graph has no cycle. */
  ghost predicate Ranked(M: Members, L: Levels) {
    M.Keys <= L.Keys &&
    forall x, q | x in M && Sub(q) in M[x] :: q in M && L[q] < L[x]
  }

  /** Every range in `ms` exists and is below `bound`. */
  ghost predicate Below(M: Members, L: Levels, ms: seq<Member>, bound: nat) {
    forall q | Sub(q) in ms :: q in M && q in L && L[q] < bound
  }

  /** The host nodes range `r` stands for, in document order. */
  ghost function Flat(M: Members, L: Levels, r: RangeId): (f: seq<NodeId>)
    requires Ranked(M, L) && r in M
    ensures |f| > 0
    decreases L[r], 1
  {
    if M[r] == [] then [Placeholder(r)] else FlatOf(M, L, M[r], L[r])
  }

  /** The host nodes of a member list. */
  ghost function FlatOf(M: Members, L: Levels, ms: seq<Member>, bound: nat): (f: seq<NodeId>)
    requires Ranked(M, L) && Below(M, L, ms, bound)
    ensures ms != [] ==> |f| > 0
    decreases bound, 0, |ms|
  {
    if ms == [] then []
    else
      var head := match ms[0] case Node(n) => [n] case Sub(q) => Flat(M, L, q);
      head + FlatOf(M, L, ms[1..], bound)
  }

  /** Range `r` and every range nested in it, at any depth. */
  ghost function Desc(M: Members, L: Levels, r: RangeId): set<RangeId>
    requires Ranked(M, L) && r in M
    decreases L[r], 1
  {
    {r} + DescOf(M, L, M[r], L[r])
  }

  ghost function DescOf(M: Members, L: Levels, ms: seq<Member>, bound: nat): set<RangeId>
    requires Ranked(M, L) && Below(M, L, ms, bound)
    decreases bound, 0, |ms|
  {
    if ms == [] then {}
    else
      var head := match ms[0] case Node(_) => {} case Sub(q) => Desc(M, L, q);
      head + DescOf(M, L, ms[1..], bound)
  }

  /** The augmenter calls that attaching (or detaching) range `r` under
      `p` makes: those of its nested ranges first, member by member, then
      its own augmenters in the order they were added. */
  ghost function Hooks(M: Members, L: Levels, A: map<RangeId, seq<AugmenterId>>, r: RangeId, p: NodeId, kind: HookKind): seq<HookCall>
    requires Ranked(M, L) && r in M && M.Keys <= A.Keys
    decreases L[r], 1
  {
    HooksOf(M, L, A, M[r], L[r], p, kind) + Calls(A[r], r, p, kind)
  }

  ghost function HooksOf(M: Members, L: Levels, A: map<RangeId, seq<AugmenterId>>, ms: seq<Member>, bound: nat, p: NodeId, kind: HookKind): seq<HookCall>
    requires Ranked(M, L) && Below(M, L, ms, bound) && M.Keys <= A.Keys
    decreases bound, 0, |ms|
  {
    if ms == [] then []
    else
      var head := match ms[0] case Node(_) => [] case Sub(q) => Hooks(M, L, A, q, p, kind);
      head + HooksOf(M, L, A, ms[1..], bound, p, kind)
  }

  /** One call per augmenter, in order. */
  function Calls(augs: seq<AugmenterId>, r: RangeId, p: NodeId, kind: HookKind): (cs: seq<HookCall>)
    ensures |cs| == |augs|
    ensures forall i | 0 <= i < |augs| :: cs[i] == HookCall(kind, augs[i], r, p)
  {
    if augs == [] then [] else [HookCall(kind, augs[0], r, p)] + Calls(augs[1..], r, p, kind)
  }

  lemma {:induction false} BelowAppend(M: Members, L: Levels, a: seq<Member>, b: seq<Member>, bound: nat)
    requires Below(M, L, a + b, bound)
    ensures Below(M, L, a, bound) && Below(M, L, b, bound)
  {
    forall q | Sub(q) in a ensures q in M && q in L && L[q] < bound {
      assert Sub(q) in a + b;
    }
    forall q | Sub(q) in b ensures q in M && q in L && L[q] < bound {
      assert Sub(q) in a + b;
    }
  }

  /** A member list split in two: its nodes, ranges and hook calls are
      those of the two halves, in order. */
  lemma {:induction false} AppendOf(M: Members, L: Levels, A: map<RangeId, seq<AugmenterId>>, a: seq<Member>, b: seq<Member>, bound: nat, p: NodeId, kind: HookKind)
    requires Ranked(M, L) && Below(M, L, a + b, bound) && M.Keys <= A.Keys
    ensures Below(M, L, a, bound) && Below(M, L, b, bound)
    ensures FlatOf(M, L, a + b, bound) == FlatOf(M, L, a, bound) + FlatOf(M, L, b, bound)
    ensures DescOf(M, L, a + b, bound) == DescOf(M, L, a, bound) + DescOf(M, L, b, bound)
    ensures HooksOf(M, L, A, a + b, bound, p, kind) == HooksOf(M, L, A, a, bound, p, kind) + HooksOf(M, L, A, b, bound, p, kind)
  {
    BelowAppend(M, L, a, b, bound);
    FlatAppend(M, L, a, b, bound);
    DescAppend(M, L, a, b, bound);
    HooksAppend(M, L, A, a, b, bound, p, kind);
  }

  lemma {:induction false} FlatAppend(M: Members, L: Levels, a: seq<Member>, b: seq<Member>, bound: nat)
    requires Ranked(M, L) && Below(M, L, a, bound) && Below(M, L, b, bound) && Below(M, L, a + b, bound)
    ensures FlatOf(M, L, a + b, bound) == FlatOf(M, L, a, bound) + FlatOf(M, L, b, bound)
    decreases |a|
  {
    if a == [] {
      assert a + b == b;
    } else {
      assert (a + b)[1..] == a[1..] + b;
      assert (a + b)[0] == a[0] && a[0] in a;
      BelowAppend(M, L, a[1..], b, bound);
      FlatAppend(M, L, a[1..], b, bound);
      var h := match a[0] case Node(n) => [n] case Sub(q) => Flat(M, L, q);
      assert FlatOf(M, L, a + b, bound) == h + FlatOf(M, L, a[1..] + b, bound);
      Assoc3(h, FlatOf(M, L, a[1..], bound), FlatOf(M, L, b, bound));
    }
  }

  lemma {:induction false} DescAppend(M: Members, L: Levels, a: seq<Member>, b: seq<Member>, bound: nat)
    requires Ranked(M, L) && Below(M, L, a, bound) && Below(M, L, b, bound) && Below(M, L, a + b, bound)
    ensures DescOf(M, L, a + b, bound) == DescOf(M, L, a, bound) + DescOf(M, L, b, bound)
    decreases |a|
  {
    if a == [] {
      assert a + b == b;
    } else {
      assert (a + b)[1..] == a[1..] + b;
      BelowAppend(M, L, a[1..], b, bound);
      DescAppend(M, L, a[1..], b, bound);
    }
  }

  lemma {:induction false} HooksAppend(M: Members, L: Levels, A: map<RangeId, seq<AugmenterId>>, a: seq<Member>, b: seq<Member>, bound: nat, p: NodeId, kind: HookKind)
    requires Ranked(M, L) && Below(M, L, a, bound) && Below(M, L, b, bound) && Below(M, L, a + b, bound) && M.Keys <= A.Keys
    ensures HooksOf(M, L, A, a + b, bound, p, kind) == HooksOf(M, L, A, a, bound, p, kind) + HooksOf(M, L, A, b, bound, p, kind)
    decreases |a|
  {
    if a == [] {
      assert a + b == b;
    } else {
      assert (a + b)[1..] == a[1..] + b;
      BelowAppend(M, L, a[1..], b, bound);
      HooksAppend(M, L, A, a[1..], b, bound, p, kind);
    }
  }

  /** Every range nested in `r` exists and is no higher than `r`. */
  lemma {:induction false} DescLevel(M: Members, L: Levels, r: RangeId, y: RangeId)
    requires Ranked(M, L) && r in M && y in Desc(M, L, r)
    ensures y in M && L[y] <= L[r]
    decreases L[r], 1
  {
    if y != r {
      DescOfLevel(M, L, M[r], L[r], y);
    }
  }

  lemma {:induction false} DescOfLevel(M: Members, L: Levels, ms: seq<Member>, bound: nat, y: RangeId)
    requires Ranked(M, L) && Below(M, L, ms, bound) && y in DescOf(M, L, ms, bound)
    ensures y in M && L[y] < bound
    decreases bound, 0, |ms|
  {
    assert ms[0] in ms;
    match ms[0]
    case Node(_) =>
      DescOfLevel(M, L, ms[1..], bound, y);
    case Sub(q) =>
      if y in Desc(M, L, q) {
        DescLevel(M, L, q, y);
      } else {
        DescOfLevel(M, L, ms[1..], bound, y);
      }
  }

  /** A range held in a member list is among the list's ranges. */
  lemma {:induction false} SubInDescOf(M: Members, L: Levels, ms: seq<Member>, bound: nat, q: RangeId)
    requires Ranked(M, L) && Below(M, L, ms, bound) && Sub(q) in ms
    ensures q in M && q in DescOf(M, L, ms, bound)
    decreases |ms|
  {
    if ms[0] != Sub(q) {
      assert Sub(q) in ms[1..];
      SubInDescOf(M, L, ms[1..], bound, q);
    }
  }

  /** A node held in a member list is among the list's nodes. */
  lemma {:induction false} NodeInFlatOf(M: Members, L: Levels, ms: seq<Member>, bound: nat, n: NodeId)
    requires Ranked(M, L) && Below(M, L, ms, bound) && Node(n) in ms
    ensures n in FlatOf(M, L, ms, bound)
    decreases |ms|
  {
    if ms[0] != Node(n) {
      assert Node(n) in ms[1..];
      NodeInFlatOf(M, L, ms[1..], bound, n);
    }
  }

  /** Every host node of `r` other than a placeholder is a member of `r`
      or of a range nested in `r`. */
  lemma {:induction false} Owner(M: Members, L: Levels, r: RangeId, n: NodeId) returns (x: RangeId)
    requires Ranked(M, L) && r in M && n in Flat(M, L, r) && !n.Placeholder?
    ensures x in Desc(M, L, r) && x in M && Node(n) in M[x]
    decreases L[r], 1
  {
    if Node(n) in M[r] {
      x := r;
    } else {
      x := OwnerOf(M, L, M[r], L[r], n);
    }
  }

  lemma {:induction false} OwnerOf(M: Members, L: Levels, ms: seq<Member>, bound: nat, n: NodeId) returns (x: RangeId)
    requires Ranked(M, L) && Below(M, L, ms, bound) && n in FlatOf(M, L, ms, bound) && !n.Placeholder?
    requires Node(n) !in ms
    ensures x in DescOf(M, L, ms, bound) && x in M && Node(n) in M[x]
    decreases bound, 0, |ms|
  {
    assert ms[0] in ms;
    var head := match ms[0] case Node(m) => [m] case Sub(q) => Flat(M, L, ms[0].range);
    assert FlatOf(M, L, ms, bound) == head + FlatOf(M, L, ms[1..], bound);
    if ms[0].Sub? && n in head {
      x := Owner(M, L, ms[0].range, n);
    } else {
      assert Node(n) !in ms[1..];
      x := OwnerOf(M, L, ms[1..], bound, n);
    }
  }

  /** A range nested in `r` has its nested ranges and its nodes within
      those of `r`. */
  lemma {:induction false} Within(M: Members, L: Levels, r: RangeId, y: RangeId)
    requires Ranked(M, L) && r in M && y in Desc(M, L, r)
    ensures y in M && Desc(M, L, y) <= Desc(M, L, r)
    ensures forall n | n in Flat(M, L, y) :: n in Flat(M, L, r)
    decreases L[r], 1
  {
    if y != r {
      WithinOf(M, L, M[r], L[r], y);
    }
  }

  lemma {:induction false} WithinOf(M: Members, L: Levels, ms: seq<Member>, bound: nat, y: RangeId)
    requires Ranked(M, L) && Below(M, L, ms, bound) && y in DescOf(M, L, ms, bound)
    ensures y in M && Desc(M, L, y) <= DescOf(M, L, ms, bound)
    ensures forall n | n in Flat(M, L, y) :: n in FlatOf(M, L, ms, bound)
    decreases bound, 0, |ms|
  {
    assert ms[0] in ms;
    match ms[0]
    case Node(_) =>
      WithinOf(M, L, ms[1..], bound, y);
    case Sub(q) =>
      if y in Desc(M, L, q) {
        Within(M, L, q, y);
      } else {
        WithinOf(M, L, ms[1..], bound, y);
      }
  }

  /** A range held by a range nested in `r` is nested in `r` too. */
  lemma {:induction false} DescClosed(M: Members, L: Levels, ms: seq<Member>, bound: nat, y: RangeId, q: RangeId)
    requires Ranked(M, L) && Below(M, L, ms, bound) && y in DescOf(M, L, ms, bound)
    requires y in M && Sub(q) in M[y]
    ensures q in DescOf(M, L, ms, bound)
  {
    WithinOf(M, L, ms, bound, y);
    SubInDescOf(M, L, M[y], L[y], q);
  }

  /** What a range denotes depends only on the member lists of the ranges
      nested in it, not on the levels chosen for them. */
  lemma {:induction false} Agree(M1: Members, L1: Levels, M2: Members, L2: Levels, A: map<RangeId, seq<AugmenterId>>, r: RangeId, p: NodeId, kind: HookKind)
    requires Ranked(M1, L1) && Ranked(M2, L2) && r in M1 && M1.Keys <= A.Keys && M2.Keys <= A.Keys
    requires forall y | y in Desc(M1, L1, r) :: y in M1 && y in M2 && M2[y] == M1[y]
    ensures r in M2
    ensures Flat(M1, L1, r) == Flat(M2, L2, r)
    ensures Desc(M1, L1, r) == Desc(M2, L2, r)
    ensures Hooks(M1, L1, A, r, p, kind) == Hooks(M2, L2, A, r, p, kind)
    decreases L1[r], 1
  {
    assert r in Desc(M1, L1, r);
    AgreeOf(M1, L1, M2, L2, A, M1[r], L1[r], L2[r], p, kind);
  }

  lemma {:induction false} AgreeOf(M1: Members, L1: Levels, M2: Members, L2: Levels, A: map<RangeId, seq<AugmenterId>>, ms: seq<Member>, b1: nat, b2: nat, p: NodeId, kind: HookKind)
    requires Ranked(M1, L1) && Ranked(M2, L2) && M1.Keys <= A.Keys && M2.Keys <= A.Keys
    requires Below(M1, L1, ms, b1) && Below(M2, L2, ms, b2)
    requires forall y | y in DescOf(M1, L1, ms, b1) :: y in M1 && y in M2 && M2[y] == M1[y]
    ensures FlatOf(M1, L1, ms, b1) == FlatOf(M2, L2, ms, b2)
    ensures DescOf(M1, L1, ms, b1) == DescOf(M2, L2, ms, b2)
    ensures HooksOf(M1, L1, A, ms, b1, p, kind) == HooksOf(M2, L2, A, ms, b2, p, kind)
    decreases b1, 0, |ms|
  {
    if ms != [] {
      assert ms[0] in ms;
      if ms[0].Sub? {
        Agree(M1, L1, M2, L2, A, ms[0].range, p, kind);
      }
      AgreeOf(M1, L1, M2, L2, A, ms[1..], b1, b2, p, kind);
    }
  }

  /** No level is above `top`. */
  ghost predicate LevelsBelow(L: Levels, top: nat) {
    forall x | x in L :: L[x] <= top
  }

  /** Levels after giving a range a new member list: the ranges reachable
      from the new members keep their level, every other range is lifted
      above all of them. */
  ghost function Shift(L: Levels, D: set<RangeId>, k: nat): Levels {
    map x | x in L :: if x in D then L[x] else L[x] + k
  }

  /** Replacing the members of `r` by `ms`, none of whose ranges holds `r`,
      keeps the range graph acyclic under the shifted levels. */
  lemma {:induction false} RankedShift(M: Members, L: Levels, top: nat, r: RangeId, ms: seq<Member>)
    requires Ranked(M, L) && r in M && LevelsBelow(L, top)
    requires Below(M, L, ms, top + 1) && r !in DescOf(M, L, ms, top + 1)
    ensures var L' := Shift(L, DescOf(M, L, ms, top + 1), top + 1);
      Ranked(M[r := ms], L') && L'.Keys == L.Keys && LevelsBelow(L', 2 * top + 1)
  {
    var D := DescOf(M, L, ms, top + 1);
    var L' := Shift(L, D, top + 1);
    var M' := M[r := ms];
    forall x, q | x in M' && Sub(q) in M'[x] ensures q in M' && L'[q] < L'[x] {
      ShiftEdge(M, L, top, r, ms, x, q);
    }
  }

  /** One member edge of the new graph climbs in the shifted levels. */
  lemma {:induction false} ShiftEdge(M: Members, L: Levels, top: nat, r: RangeId, ms: seq<Member>, x: RangeId, q: RangeId)
    requires Ranked(M, L) && r in M && LevelsBelow(L, top)
    requires Below(M, L, ms, top + 1) && r !in DescOf(M, L, ms, top + 1)
    requires x in M[r := ms] && Sub(q) in M[r := ms][x]
    ensures var L' := Shift(L, DescOf(M, L, ms, top + 1), top + 1);
      q in M && L'[q] < L'[x]
  {
    if x == r {
      SubInDescOf(M, L, ms, top + 1, q);
    } else if x in DescOf(M, L, ms, top + 1) {
      DescClosed(M, L, ms, top + 1, x, q);
    }
  }
}
