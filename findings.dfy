/** `moveMember` as packages/blaze/domrange.js:256-260 writes it, and
    three inputs on which it breaks the range: each is passed to it and
    to the corrected `Editing.MoveMember`. */
module Findings {
  import opened Util
  import opened Seqs
  import opened HostTree
  import opened Ranges
  import opened Steps
  import opened Engine
  import opened BackLinks
  import opened Editing

  /** `moveMember(from, to)` as written: the member at `from` is read
      without a check, `removeMember(from, true)` splices it out (throwing
      on a bad `from` before anything changes), and then
      `addMember(member, to, true)` runs on what is left, whatever it
      does. */
  method MoveMemberAsWritten(M: Members, ghost L: Levels, ghost top: nat, A: map<RangeId, seq<AugmenterId>>,
                             t0: Tree, S0: map<RangeId, Status>, H0: seq<HookCall>, b0: Links,
                             r: RangeId, from: int, to: int)
    returns (res: Result<()>, M': Members, ghost L': Levels, ghost top': nat,
             t: Tree, S: map<RangeId, Status>, H: seq<HookCall>, b: Links)
    requires Inv(t0, M, L, S0, A) && r in M && LevelsBelow(L, top) && Settled(t0, M, L, S0, r)
    ensures Inv(t, M', L', S, A) && LevelsBelow(L', top') && M'.Keys == M.Keys
    ensures !(0 <= from < |M[r]|) ==> res == Err(BadIndex) && M' == M && t == t0 && S == S0 && H == H0 && b == b0
    ensures 0 <= from < |M[r]| ==>
      var M1 := M[r := Removed(M[r], from)];
      Inv(t0, M1, L, S0, A) && Settled(t0, M1, L, S0, r) &&
      MemberAddedAt(M1, L, M', L', A, t0, S0, H0, b0, r, M[r][from], to, true, res, t, S, H, b)
  {
    if !(0 <= from < |M[r]|) {
      return Err(BadIndex), M, L, top, t0, S0, H0, b0;
    }
    var m := M[r][from];
    MoveReady(t0, M, L, top, S0, r, from);
    var M1, t1, S1, H1, b1;
    ghost var L1, top1;
    res, M1, L1, top1, t1, S1, H1, b1 := RemoveMember(M, L, top, A, t0, S0, H0, b0, r, from, true);
    res, M', L', top', t, S, H, b := AddMember(M1, L1, top1, A, t1, S1, H1, b1, r, m, to, true);
  }

  const P := Element(0)
  const Detached := Status(false, None, None)
  const UnderP := Status(true, Some(P), None)
  const Bare := Links(map[], map[])

  /** A bad target index loses the member: `moveMember(0, 2)` on a
      detached range with members `[a, b]` splices `a` out and then throws,
      leaving `[b]`; the corrected operation throws with `[a, b]` intact. */
  method LostOnBadTarget() returns (asWritten: seq<Member>, corrected: seq<Member>)
    ensures asWritten == [Node(Text(2))]
    ensures corrected == [Node(Text(1)), Node(Text(2))]
  {
    var M := map[0 := [Node(Text(1)), Node(Text(2))]];
    var L := map[0 := 0];
    var A := map[0 := []];
    var S0 := map[0 := Detached];
    var t0 := Tree(map[], map[]);
    var res, M', t, S, H, b;
    ghost var L', top';
    res, M', L', top', t, S, H, b := MoveMemberAsWritten(M, L, 0, A, t0, S0, [], Bare, 0, 0, 2);
    asWritten := M'[0];
    res, M', L', top', t, S, H, b := MoveMember(M, L, 0, A, t0, S0, [], Bare, 0, 0, 2);
    corrected := M'[0];
  }

  /** One attached range 0 under `P` whose only member is the text node 1. */
  const Single: Members := map[0 := [Node(Text(1))]]
  const Flatly: Levels := map[0 := 0]
  const NoAugs: map<RangeId, seq<AugmenterId>> := map[0 := []]
  const SingleStatus: map<RangeId, Status> := map[0 := UnderP]
  const SingleTree := Tree(map[P := [Text(1)]], map[Text(1) := P])

  lemma SingleReady()
    ensures Inv(SingleTree, Single, Flatly, SingleStatus, NoAugs) && LevelsBelow(Flatly, 0)
    ensures Settled(SingleTree, Single, Flatly, SingleStatus, 0) && Placeholders(Single, SingleStatus)
  {
    assert Flat(Single, Flatly, 0) == [Text(1)];
  }

  /** What `addMember(node 1, 0, true)` does once the member is spliced out. */
  lemma SingleLost(res: Result<()>, M': Members, L': Levels, t: Tree, S: map<RangeId, Status>, H: seq<HookCall>, b: Links)
    requires Inv(SingleTree, Single[0 := []], Flatly, SingleStatus, NoAugs)
    requires Settled(SingleTree, Single[0 := []], Flatly, SingleStatus, 0)
    requires Ranked(M', L') && M'.Keys == Single.Keys
    requires MemberAddedAt(Single[0 := []], Flatly, M', L', NoAugs, SingleTree, SingleStatus, [], Bare,
                           0, Node(Text(1)), 0, true, res, t, S, H, b)
    ensures res == Err(NullNode) && M'[0] == [] && t == SingleTree
  {
    assert LastNode(Single[0 := []], Flatly, SingleStatus, 0) == Ok(None);
  }

  /** Moving the only member onto itself empties an attached range without
      a placeholder: `removeMember(0, true)` splices the member out and
      creates none, so `addMember` goes through `setMembers([m])`, whose
      `lastNode()` is null and throws. The member is lost while its node
      stays in the document; the corrected operation leaves all as it was. */
  method LostOnSelfMove() returns (res: Result<()>, asWritten: seq<Member>, kids: seq<NodeId>,
                                   corrected: seq<Member>)
    ensures res == Err(NullNode) && asWritten == [] && kids == [Text(1)]
    ensures corrected == [Node(Text(1))]
  {
    SingleReady();
    var M', t, S, H, b;
    ghost var L', top';
    res, M', L', top', t, S, H, b := MoveMemberAsWritten(Single, Flatly, 0, NoAugs, SingleTree, SingleStatus, [], Bare,
                                                         0, 0, 0);
    assert Removed(Single[0], 0) == [];
    SingleLost(res, M', L', t, S, H, b);
    asWritten, kids := M'[0], Kids(t, P);
    var res2;
    res2, M', L', top', t, S, H, b := MoveMember(Single, Flatly, 0, NoAugs, SingleTree, SingleStatus, [], Bare, 0, 0, 0);
    MovedKeeps(Single[0], 0, 0);
    corrected := M'[0];
  }

  /** Range 0 under `P` holding the text node 1 and then range 1, which
      holds the text nodes 2 and 3. */
  const Pair: Members := map[0 := [Node(Text(1)), Sub(1)], 1 := [Node(Text(2)), Node(Text(3))]]
  const PairLevels: Levels := map[0 := 1, 1 := 0]
  const PairAugs: map<RangeId, seq<AugmenterId>> := map[0 := [], 1 := []]
  const PairStatus: map<RangeId, Status> := map[0 := UnderP, 1 := UnderP]
  const PairTree := Tree(map[P := [Text(1), Text(2), Text(3)]], map[Text(1) := P, Text(2) := P, Text(3) := P])
  /** Range 0 with range 1 spliced out. */
  const Front: Members := Pair[0 := [Node(Text(1))]]

  lemma PairRanked()
    ensures Ranked(Pair, PairLevels) && LevelsBelow(PairLevels, 1)
  {
    forall x, q | x in Pair && Sub(q) in Pair[x] ensures q in Pair && PairLevels[q] < PairLevels[x] {
      assert x == 0 && q == 1;
    }
  }

  lemma ThreeApart()
    ensures NoDup([Text(1), Text(2), Text(3)])
  {
  }

  lemma PairTreeValid()
    ensures HostTree.Valid(PairTree)
  {
    ThreeApart();
  }

  lemma PairFlat()
    ensures Ranked(Pair, PairLevels) && Flat(Pair, PairLevels, 0) == [Text(1), Text(2), Text(3)]
  {
    PairRanked();
    FlatPair(Pair, PairLevels, 1, Text(2), Text(3));
    var ms := Pair[0];
    assert ms[1..] == [Sub(1)] && ms[1..][1..] == [];
    assert FlatOf(Pair, PairLevels, ms[1..], 1) == [Text(2), Text(3)];
  }

  lemma PairSettled()
    ensures Ranked(Pair, PairLevels) && Settled(PairTree, Pair, PairLevels, PairStatus, 0)
  {
    PairFlat();
    ThreeApart();
    PairUnder();
    PairPlaced(DescOf(Pair, PairLevels, Pair[0], PairLevels[0]));
  }

  /** Neither range of the pair is empty. */
  lemma PairPlaced(D: set<RangeId>)
    ensures AllPlaced(Pair, PairStatus, D)
  {
    forall d | d in D && d in Pair ensures Pair[d] != [] {
      assert d == 0 || d == 1;
    }
  }

  lemma PairUnder()
    ensures Ranked(Pair, PairLevels) && AllUnder(PairStatus, Desc(Pair, PairLevels, 0), P)
  {
    PairRanked();
    forall d | d in Desc(Pair, PairLevels, 0) ensures d in PairStatus && PairStatus[d] == UnderP {
      DescLevel(Pair, PairLevels, 0, d);
    }
  }

  lemma PairReady()
    ensures Inv(PairTree, Pair, PairLevels, PairStatus, PairAugs) && LevelsBelow(PairLevels, 1)
    ensures Flat(Pair, PairLevels, 0) == [Text(1), Text(2), Text(3)]
    ensures Settled(PairTree, Pair, PairLevels, PairStatus, 0) && Placeholders(Pair, PairStatus)
  {
    PairInv();
    PairFlat();
    PairSettled();
    PairPlaceholders();
  }

  lemma PairInv()
    ensures Inv(PairTree, Pair, PairLevels, PairStatus, PairAugs) && LevelsBelow(PairLevels, 1)
  {
    PairRanked();
    PairTreeValid();
  }

  lemma PairPlaceholders()
    ensures Placeholders(Pair, PairStatus)
  {
  }

  /** With range 1 spliced out, the anchor for inserting at the end is the
      node after the text node 1: range 1's own first node. */
  lemma FrontAnchor()
    ensures Ranked(Front, PairLevels) && AddAnchor(Front, PairLevels, PairStatus, PairTree, 0, 1) == Ok(Some(Text(2)))
  {
    assert NextSibling(PairTree, Text(1)) == Some(Text(2));
  }

  /** Filtering one node out of a child list, worked out step by step. */
  lemma Filtered(a: NodeId, b: NodeId, c: NodeId, x: NodeId)
    requires x != a && x != c && x == b
    ensures Without([a, b, c], [x]) == [a, c]
  {
    assert [a, b, c][1..] == [b, c] && [b, c][1..] == [c] && [c][1..] == [];
    assert Without([c], [x]) == [c];
    assert Without([b, c], [x]) == [c];
  }

  /** Inserting `b` before `c` in `[a, c]` puts it between them. */
  lemma SlotBetween(a: NodeId, b: NodeId, c: NodeId)
    requires a != c
    ensures InsertBefore([a, c], [b], Some(c)) == [a, b, c]
  {
    assert Anchor([a, c], Some(c)) == 1;
  }

  /** Placing the text node 2 before itself puts it back where it was,
      between the text nodes 1 and 3. */
  lemma FirstPlaced()
    ensures var t := Place(PairTree, Text(2), P, Some(Text(2)), true);
      Kids(t, P) == [Text(1), Text(2), Text(3)] && Text(3) in t.parentNode && t.parentNode[Text(3)] == P
  {
    assert NextSibling(PairTree, Text(2)) == Some(Text(3));
    Filtered(Text(1), Text(2), Text(3), Text(2));
    assert Kids(Remove(PairTree, Text(2)), P) == [Text(1), Text(3)];
    SlotBetween(Text(1), Text(2), Text(3));
  }

  /** Placing the text node 3 before the text node 2 swaps them. */
  lemma SecondPlaced(t: Tree)
    requires Kids(t, P) == [Text(1), Text(2), Text(3)] && Text(3) in t.parentNode && t.parentNode[Text(3)] == P
    ensures Kids(Place(t, Text(3), P, Some(Text(2)), true), P) == [Text(1), Text(3), Text(2)]
  {
    assert Without([Text(1), Text(2), Text(3)], [Text(3)]) == [Text(1), Text(2)] by {
      var k := [Text(1), Text(2), Text(3)];
      assert k[1..] == [Text(2), Text(3)] && k[1..][1..] == [Text(3)] && [Text(3)][1..] == [];
      assert Without([Text(3)], [Text(3)]) == [];
      assert Without([Text(2), Text(3)], [Text(3)]) == [Text(2)];
    }
    assert Kids(Remove(t, Text(3)), P) == [Text(1), Text(2)];
    SlotBetween(Text(1), Text(3), Text(2));
  }

  /** Placing the text nodes 2 and 3, in order, before the text node 2. */
  lemma PlacedBeforeItself()
    ensures Kids(PlaceAll(PairTree, [Text(2), Text(3)], P, Some(Text(2)), true), P) == [Text(1), Text(3), Text(2)]
  {
    FirstPlaced();
    SecondPlaced(Place(PairTree, Text(2), P, Some(Text(2)), true));
    assert [Text(2), Text(3)][1..] == [Text(3)] && [Text(3)][1..] == [];
  }

  /** A range holding two nodes is those two nodes. */
  lemma FlatPair(M: Members, L: Levels, q: RangeId, a: NodeId, b: NodeId)
    requires Ranked(M, L) && q in M && M[q] == [Node(a), Node(b)]
    ensures Flat(M, L, q) == [a, b]
  {
    var ms := M[q];
    assert ms[1..] == [Node(b)] && ms[1..][1..] == [];
    assert FlatOf(M, L, ms[1..], L[q]) == [b];
  }

  /** What `addMember(range 1, 1, true)` does once range 1 is spliced out. */
  lemma PairReordered(res: Result<()>, M': Members, L': Levels, t: Tree, S: map<RangeId, Status>, H: seq<HookCall>, b: Links)
    requires Inv(PairTree, Front, PairLevels, PairStatus, PairAugs)
    requires Settled(PairTree, Front, PairLevels, PairStatus, 0)
    requires Ranked(M', L') && M'.Keys == Pair.Keys
    requires MemberAddedAt(Front, PairLevels, M', L', PairAugs, PairTree, PairStatus, [], Bare,
                           0, Sub(1), 1, true, res, t, S, H, b)
    ensures res.Ok? && Kids(t, P) == [Text(1), Text(3), Text(2)]
  {
    FrontShape();
    assert MemberAdded(Front, PairLevels, M', L', PairAugs, PairTree, PairStatus, [], 0, Sub(1), 1, true, res, t, S, H);
    FrontAdded(res, M', L', t, S, H);
  }

  lemma FrontShape()
    ensures Front.Keys == Pair.Keys && |Front[0]| == 1 && PairStatus[0] == UnderP
  {
  }

  /** The anchor lookup and `_insert` of that `addMember`. */
  lemma FrontAdded(res: Result<()>, M': Members, L': Levels, t: Tree, S: map<RangeId, Status>, H: seq<HookCall>)
    requires Ranked(Front, PairLevels) && Ranked(M', L') && M'.Keys == Pair.Keys
    requires MemberAdded(Front, PairLevels, M', L', PairAugs, PairTree, PairStatus, [], 0, Sub(1), 1, true, res, t, S, H)
    ensures res.Ok? && Kids(t, P) == [Text(1), Text(3), Text(2)]
  {
    FrontAnchor();
    assert M'[1] == [Node(Text(2)), Node(Text(3))];
    FlatPair(M', L', 1, Text(2), Text(3));
    PlacedBeforeItself();
  }

  lemma RemovedLast(x: Member, y: Member)
    ensures Removed([x, y], 1) == [x]
  {
  }

  /** Moving the last member onto itself when it is a range `q` of two
      nodes `s, f` reorders the document: with `q` spliced out, the anchor
      `addMember` computes is the node after `a`, which is `s`, `q`'s own
      first node, and placing `s` then `f` before `s` leaves `a, f, s`
      under the parent while the members still say `a, s, f`. The
      corrected operation leaves the document as it was. */
  method ReorderedOnSelfMove() returns (res: Result<()>, kids: seq<NodeId>, correctedKids: seq<NodeId>)
    ensures res.Ok? && kids == [Text(1), Text(3), Text(2)]
    ensures correctedKids == Flat(Pair, PairLevels, 0) == [Text(1), Text(2), Text(3)]
  {
    PairReady();
    var M', t, S, H, b;
    ghost var L', top';
    res, M', L', top', t, S, H, b := MoveMemberAsWritten(Pair, PairLevels, 1, PairAugs, PairTree, PairStatus, [], Bare,
                                                         0, 1, 1);
    RemovedLast(Node(Text(1)), Sub(1));
    PairReordered(res, M', L', t, S, H, b);
    kids := Kids(t, P);
    var res2;
    res2, M', L', top', t, S, H, b := MoveMember(Pair, PairLevels, 1, PairAugs, PairTree, PairStatus, [], Bare, 0, 1, 1);
    assert t == PairTree;
    correctedKids := Kids(t, P);
  }
}
