/** Creating a range, its stop callbacks and its augmenter list
    (packages/blaze/domrange.js:10-28, 269-280, 348-352). A callback or
    augmenter is code the range does not own: calling one is recorded in
    a log; a callback never edits ranges while it runs. */
module Lifecycle {
  import opened Util
  import opened HostTree
  import opened Ranges
  import opened BackLinks

  /** Stop callback `callback` called with range `range` as `this`. */
  datatype StopCall = StopCall(callback: CallbackId, range: RangeId)

  /** The calls `stop` makes: each callback once, in order. */
  function StopCalls(cbs: seq<CallbackId>, r: RangeId): (cs: seq<StopCall>)
    ensures |cs| == |cbs|
    ensures forall i | 0 <= i < |cbs| :: cs[i] == StopCall(cbs[i], r)
  {
    if cbs == [] then [] else [StopCall(cbs[0], r)] + StopCalls(cbs[1..], r)
  }

  /** The record of a new range: detached, no parent element, no
      placeholder. */
  const Fresh := Status(false, None, None)

  /** The back-pointers after the constructor of range `id` with members
      `ms`: each member points at `id`, the new range at no range, and
      every other pointer is as it was. */
  ghost predicate Adopted(b0: Links, b: Links, ms: seq<Member>, id: RangeId) {
    b.parentRange.Keys == b0.parentRange.Keys + SubsOf(ms) + {id} &&
    b.parentRange[id] == None &&
    (forall q | q in b.parentRange && q != id :: b.parentRange[q] == if Sub(q) in ms then Some(id) else b0.parentRange[q]) &&
    ElemsMarked(b0, b, ms, Some(id))
  }

  /** What the constructor of range `id` with members `ms` leaves: the new
      range holds the array, is detached, has no stop callbacks or
      augmenters, and the back-pointers are as `Adopted` says; every other
      range is as it was. */
  ghost predicate Created(M: Members, S: map<RangeId, Status>, C: map<RangeId, seq<CallbackId>>,
                          A: map<RangeId, seq<AugmenterId>>, b0: Links,
                          M': Members, S': map<RangeId, Status>, C': map<RangeId, seq<CallbackId>>,
                          A': map<RangeId, seq<AugmenterId>>, b: Links, id: RangeId, ms: seq<Member>) {
    M' == M[id := ms] && S' == S[id := Fresh] && C' == C[id := []] && A' == A[id := []] && Adopted(b0, b, ms, id)
  }

  /** The constructor (domrange.js:10-28) given a range id no range has
      yet, as `Created` says. The new range's level is above every other,
      so the range graph stays acyclic, and back-pointers that were sound
      stay sound. */
  method NewRange(M: Members, ghost L: Levels, ghost top: nat, S: map<RangeId, Status>,
                  C: map<RangeId, seq<CallbackId>>, A: map<RangeId, seq<AugmenterId>>, b0: Links,
                  id: RangeId, ms: seq<Member>)
    returns (M': Members, ghost L': Levels, ghost top': nat, S': map<RangeId, Status>,
             C': map<RangeId, seq<CallbackId>>, A': map<RangeId, seq<AugmenterId>>, b: Links)
    requires Ranked(M, L) && LevelsBelow(L, top) && id !in M && Below(M, L, ms, top + 1)
    ensures Ranked(M', L') && LevelsBelow(L', top')
    ensures BackPointers(M, b0) ==> BackPointers(M', b)
    ensures Created(M, S, C, A, b0, M', S', C', A', b, id, ms)
  {
    b := MarkAll(b0, ms, Some(id));
    b := b.(parentRange := b.parentRange[id := None]);
    M', S', C', A' := M[id := ms], S[id := Fresh], C[id := []], A[id := []];
    L', top' := L[id := top + 1], top + 1;
    NewRanked(M, L, top, id, ms);
    if BackPointers(M, b0) {
      NewLinks(M, b0, b, ms, id);
    }
  }

  lemma {:induction false} NewRanked(M: Members, L: Levels, top: nat, id: RangeId, ms: seq<Member>)
    requires Ranked(M, L) && LevelsBelow(L, top) && id !in M && Below(M, L, ms, top + 1)
    ensures Ranked(M[id := ms], L[id := top + 1]) && LevelsBelow(L[id := top + 1], top + 1)
  {
    var M', L' := M[id := ms], L[id := top + 1];
    forall x, q | x in M' && Sub(q) in M'[x] ensures q in M' && L'[q] < L'[x] {
      if x != id {
        assert q != id;
      }
    }
  }

  lemma {:induction false} NewLinks(M: Members, b0: Links, b: Links, ms: seq<Member>, id: RangeId)
    requires BackPointers(M, b0) && id !in M && Adopted(b0, b, ms, id)
    ensures BackPointers(M[id := ms], b)
  {
    var M' := M[id := ms];
    forall q | q in b.parentRange && b.parentRange[q].Some?
      ensures b.parentRange[q].value in M' && Sub(q) in M'[b.parentRange[q].value]
    {
      if Sub(q) !in ms {
        assert q in b0.parentRange;
      }
    }
    forall n | n in b.blazeRange && b.blazeRange[n].Some?
      ensures n.Element? && b.blazeRange[n].value in M' && Node(n) in M'[b.blazeRange[n].value]
    {
      if !(Node(n) in ms && n.Element?) {
        assert n in b0.blazeRange;
      }
    }
  }

  /** `stop` (domrange.js:269-274): each stop callback of `r` is called
      once, in the order added, and the list is emptied, so stopping again
      calls nothing. */
  method Stop(C: map<RangeId, seq<CallbackId>>, log0: seq<StopCall>, r: RangeId)
    returns (C': map<RangeId, seq<CallbackId>>, log: seq<StopCall>)
    requires r in C
    ensures log == log0 + StopCalls(C[r], r)
    ensures C' == C[r := []]
    ensures C[r] == [] ==> C' == C && log == log0
  {
    var cbs := C[r];
    log := log0;
    var i := 0;
    while i < |cbs|
      invariant i <= |cbs| && log == log0 + StopCalls(cbs[..i], r)
    {
      StopCallsSnoc(cbs, i, r);
      log := log + [StopCall(cbs[i], r)];
      i := i + 1;
    }
    assert cbs[..i] == cbs;
    C' := C[r := []];
    if cbs == [] {
      assert C' == C by {
        MapExt(C', C);
      }
    }
  }

  lemma {:induction false} StopCallsSnoc(cbs: seq<CallbackId>, i: nat, r: RangeId)
    requires i < |cbs|
    ensures StopCalls(cbs[..i + 1], r) == StopCalls(cbs[..i], r) + [StopCall(cbs[i], r)]
  {
    var a, b := StopCalls(cbs[..i + 1], r), StopCalls(cbs[..i], r) + [StopCall(cbs[i], r)];
    assert |a| == |b|;
    forall k | 0 <= k < |a| ensures a[k] == b[k] {
      assert cbs[..i + 1][k] == cbs[k];
      if k < i {
        assert cbs[..i][k] == cbs[k];
      }
    }
  }

  /** `onstop(cb)` (domrange.js:276-280): `cb` joins the end of the list. */
  method OnStop(C: map<RangeId, seq<CallbackId>>, r: RangeId, cb: CallbackId) returns (C': map<RangeId, seq<CallbackId>>)
    requires r in C
    ensures C' == C[r := C[r] + [cb]]
  {
    C' := C[r := C[r] + [cb]];
  }

  /** A callback added with `onstop` is called by the next `stop`, after
      those added before it. */
  lemma {:induction false} StopCallsAppend(cbs: seq<CallbackId>, cb: CallbackId, r: RangeId)
    ensures StopCalls(cbs + [cb], r) == StopCalls(cbs, r) + [StopCall(cb, r)]
  {
    assert (cbs + [cb])[..|cbs|] == cbs;
    StopCallsSnoc(cbs + [cb], |cbs|, r);
    assert (cbs + [cb])[..|cbs| + 1] == cbs + [cb];
  }

  /** `addDOMAugmenter(aug)` (domrange.js:348-352): `aug` joins the end of
      the range's augmenters. */
  method AddAugmenter(A: map<RangeId, seq<AugmenterId>>, r: RangeId, aug: AugmenterId) returns (A': map<RangeId, seq<AugmenterId>>)
    requires r in A
    ensures A' == A[r := A[r] + [aug]]
  {
    A' := A[r := A[r] + [aug]];
  }

  /** An augmenter added to `r` is told of each later attach or detach of
      `r`, after the augmenters added before it. */
  lemma {:induction false} CallsAppend(augs: seq<AugmenterId>, aug: AugmenterId, r: RangeId, p: NodeId, kind: HookKind)
    ensures Calls(augs + [aug], r, p, kind) == Calls(augs, r, p, kind) + [HookCall(kind, aug, r, p)]
  {
    var a, b := Calls(augs + [aug], r, p, kind), Calls(augs, r, p, kind) + [HookCall(kind, aug, r, p)];
    assert |a| == |b|;
    forall k | 0 <= k < |a| ensures a[k] == b[k] {
      assert (augs + [aug])[k] == if k < |augs| then augs[k] else aug;
    }
  }
}
