/** The host tree (the browser document) as the range engine sees it: the
    ordered child list of every container and the parent pointer of every
    placed node. The element-level hooks (`_uihooks`) and the browser
    workarounds of the source are not modelled: every insertion, move and
    removal is the plain structural one. */
module HostTree {
  import opened Util
  import opened Seqs

  /** Host node identities. `Placeholder(r)` is the empty text node that
      range `r` shows while it is attached and has no members; no other node
      shares its identity, which is what the source gets from creating a
      fresh text node. */
  datatype NodeId = Element(id: nat) | Text(id: nat) | Fragment(id: nat) | Placeholder(range: nat)

  datatype Tree = Tree(children: map<NodeId, seq<NodeId>>, parentNode: map<NodeId, NodeId>)

  /** Child lists hold no node twice, and the parent pointers agree with
      them in both directions. */
  ghost predicate Valid(t: Tree) {
    ListsNoDup(t) && ChildrenHaveParent(t) && ParentsHaveChild(t)
  }

  ghost predicate ListsNoDup(t: Tree) {
    forall p | p in t.children :: NoDup(t.children[p])
  }

  ghost predicate ChildrenHaveParent(t: Tree) {
    forall p, n | p in t.children && n in t.children[p] :: n in t.parentNode && t.parentNode[n] == p
  }

  ghost predicate ParentsHaveChild(t: Tree) {
    forall n | n in t.parentNode :: t.parentNode[n] in t.children && n in t.children[t.parentNode[n]]
  }

  /** The child list of `p`; empty when `p` has none. */
  function Kids(t: Tree, p: NodeId): seq<NodeId> {
    if p in t.children then t.children[p] else []
  }

  /** `n.parentNode.removeChild(n)`, or nothing when `n` has no parent
      (`DOMRange._removeNodeWithHooks`, domrange.js:55-64). */
  function Remove(t: Tree, n: NodeId): Tree {
    if n !in t.parentNode then t
    else
      var p := t.parentNode[n];
      Tree(t.children[p := Without(Kids(t, p), [n])], t.parentNode - {n})
  }

  /** `parent.insertBefore(n, next)`: `n` leaves its old place, if any, and
      lands just before `next`, or last when there is no `next`
      (`_insertNodeWithHooks`/`_moveNodeWithHooks`, domrange.js:66-88).
      As the DOM Standard's pre-insert steps say, a node inserted before
      itself is inserted before its own next sibling. */
  function Insert(t: Tree, n: NodeId, parent: NodeId, next: Option<NodeId>): Tree {
    var ref := if next == Some(n) then NextSibling(t, n) else next;
    var t1 := Remove(t, n);
    Tree(t1.children[parent := InsertBefore(Kids(t1, parent), [n], ref)], t1.parentNode[n := parent])
  }

  /** In a well-formed tree, removing `n` filters it out of every child
      list (it sits in at most one) and keeps the tree well formed. */
  lemma {:induction false} RemoveSpec(t: Tree, n: NodeId)
    requires Valid(t)
    ensures Valid(Remove(t, n))
    ensures Remove(t, n).parentNode == t.parentNode - {n}
    ensures Remove(t, n).children.Keys == t.children.Keys
    ensures forall q | q in t.children :: Remove(t, n).children[q] == Without(t.children[q], [n])
  {
    if n !in t.parentNode {
      assert t.parentNode - {n} == t.parentNode;
      forall q | q in t.children ensures t.children[q] == Without(t.children[q], [n]) {
        Apart(t, n, q);
      }
      RemoveValid(t, n, t);
    } else {
      var p := t.parentNode[n];
      var t' := Remove(t, n);
      assert t' == Tree(t.children[p := Without(t.children[p], [n])], t.parentNode - {n});
      UpdateKeys(t.children, p, Without(t.children[p], [n]));
      forall q | q in t.children ensures t'.children[q] == Without(t.children[q], [n]) {
        if q != p {
          Apart(t, n, q);
        }
      }
      RemoveValid(t, n, t');
    }
  }

  /** A node is in no child list but its parent's. */
  lemma {:induction false} Apart(t: Tree, n: NodeId, q: NodeId)
    requires ChildrenHaveParent(t) && q in t.children
    requires n in t.parentNode ==> t.parentNode[n] != q
    ensures Without(t.children[q], [n]) == t.children[q]
  {
    assert n !in t.children[q];
    WithoutNone(t.children[q], [n]);
  }

  lemma {:induction false} RemoveValid(t: Tree, n: NodeId, t': Tree)
    requires Valid(t)
    requires t'.children.Keys == t.children.Keys && t'.parentNode == t.parentNode - {n}
    requires forall p | p in t.children :: t'.children[p] == Without(t.children[p], [n])
    ensures Valid(t')
  {
    RemoveNoDup(t, n, t');
    RemoveChildren(t, n, t');
    RemoveParents(t, n, t');
  }

  lemma {:induction false} RemoveNoDup(t: Tree, n: NodeId, t': Tree)
    requires ListsNoDup(t)
    requires t'.children.Keys == t.children.Keys
    requires forall p | p in t.children :: t'.children[p] == Without(t.children[p], [n])
    ensures ListsNoDup(t')
  {
    forall p | p in t'.children ensures NoDup(t'.children[p]) {
      WithoutNoDup(t.children[p], [n]);
    }
  }

  lemma {:induction false} RemoveChildren(t: Tree, n: NodeId, t': Tree)
    requires ChildrenHaveParent(t)
    requires t'.children.Keys == t.children.Keys && t'.parentNode == t.parentNode - {n}
    requires forall p | p in t.children :: t'.children[p] == Without(t.children[p], [n])
    ensures ChildrenHaveParent(t')
  {
    forall p, m | p in t'.children && m in t'.children[p]
      ensures m in t'.parentNode && t'.parentNode[m] == p
    {
      WithoutMember(t.children[p], [n], m);
    }
  }

  lemma {:induction false} RemoveParents(t: Tree, n: NodeId, t': Tree)
    requires ParentsHaveChild(t)
    requires t'.children.Keys == t.children.Keys && t'.parentNode == t.parentNode - {n}
    requires forall p | p in t.children :: t'.children[p] == Without(t.children[p], [n])
    ensures ParentsHaveChild(t')
  {
    forall m | m in t'.parentNode
      ensures t'.parentNode[m] in t'.children && m in t'.children[t'.parentNode[m]]
    {
      var q := t.parentNode[m];
      assert m in t.children[q] && m != n;
      WithoutMember(t.children[q], [n], m);
    }
  }

  /** In a well-formed tree, inserting `n` under a container moves it out
      of its old child list and into the container's, before `next`, and
      keeps the tree well formed. */
  lemma {:induction false} InsertSpec(t: Tree, n: NodeId, parent: NodeId, next: Option<NodeId>)
    requires Valid(t) && parent in t.children && next != Some(n)
    ensures Valid(Insert(t, n, parent, next))
    ensures Insert(t, n, parent, next).parentNode == t.parentNode[n := parent]
    ensures Insert(t, n, parent, next).children.Keys == t.children.Keys
    ensures Insert(t, n, parent, next).children[parent] == MoveBefore(t.children[parent], [n], next)
    ensures forall q | q in t.children && q != parent :: Insert(t, n, parent, next).children[q] == Without(t.children[q], [n])
  {
    InsertShape(t, n, parent, next);
    InsertLists(t, n, parent, next);
  }

  lemma {:induction false} InsertShape(t: Tree, n: NodeId, parent: NodeId, next: Option<NodeId>)
    requires Valid(t) && parent in t.children
    ensures Valid(Insert(t, n, parent, next))
    ensures Insert(t, n, parent, next).parentNode == t.parentNode[n := parent]
    ensures Insert(t, n, parent, next).children.Keys == t.children.Keys
  {
    var ref := if next == Some(n) then NextSibling(t, n) else next;
    var t1 := Remove(t, n);
    RemoveSpec(t, n);
    var s1 := InsertBefore(t1.children[parent], [n], ref);
    var t' := Tree(t1.children[parent := s1], t1.parentNode[n := parent]);
    assert Insert(t, n, parent, next) == t';
    InsertValid(t1, n, parent, ref, t');
    UpdateKeys(t1.children, parent, s1);
    UpdateAfterRemove(t.parentNode, n, parent);
  }

  lemma {:induction false} InsertLists(t: Tree, n: NodeId, parent: NodeId, next: Option<NodeId>)
    requires Valid(t) && parent in t.children && next != Some(n)
    ensures Insert(t, n, parent, next).children[parent] == MoveBefore(t.children[parent], [n], next)
    ensures forall q | q in t.children && q != parent :: Insert(t, n, parent, next).children[q] == Without(t.children[q], [n])
  {
    var t1 := Remove(t, n);
    var s1 := InsertBefore(Kids(t1, parent), [n], next);
    var c := Insert(t, n, parent, next).children;
    assert c == t1.children[parent := s1];
    RemoveSpec(t, n);
    assert c[parent] == MoveBefore(t.children[parent], [n], next);
    forall q | q in t.children && q != parent ensures c[q] == Without(t.children[q], [n]) {
      assert c[q] == t1.children[q];
    }
  }

  lemma {:induction false} UpdateAfterRemove<K, V>(m: map<K, V>, k: K, v: V)
    ensures (m - {k})[k := v] == m[k := v]
  {
  }

  lemma {:induction false} RemoveAfterUpdate<K, V>(m: map<K, V>, k: K, v: V)
    requires k !in m
    ensures m[k := v] - {k} == m
  {
  }

  lemma {:induction false} UpdateKeys<K, V>(m: map<K, V>, k: K, v: V)
    requires k in m
    ensures m[k := v].Keys == m.Keys
  {
  }

  lemma {:induction false} MapExt<K, V>(m1: map<K, V>, m2: map<K, V>)
    requires m1.Keys == m2.Keys
    requires forall k | k in m1 :: m1[k] == m2[k]
    ensures m1 == m2
  {
  }

  lemma {:induction false} InsertValid(t1: Tree, n: NodeId, parent: NodeId, next: Option<NodeId>, t': Tree)
    requires Valid(t1) && parent in t1.children && n !in t1.parentNode
    requires t' == Tree(t1.children[parent := InsertBefore(t1.children[parent], [n], next)], t1.parentNode[n := parent])
    ensures Valid(t')
  {
    InsertNoDup(t1, n, parent, next, t');
    InsertChildren(t1, n, parent, next, t');
    InsertParents(t1, n, parent, next, t');
  }

  lemma {:induction false} InsertNoDup(t1: Tree, n: NodeId, parent: NodeId, next: Option<NodeId>, t': Tree)
    requires Valid(t1) && parent in t1.children && n !in t1.parentNode
    requires t' == Tree(t1.children[parent := InsertBefore(t1.children[parent], [n], next)], t1.parentNode[n := parent])
    ensures ListsNoDup(t')
  {
    var s := t1.children[parent];
    var k := Anchor(s, next);
    assert n !in s;
    assert s == s[..k] + s[k..];
    NoDupAppend(s[..k], s[k..]);
    NoDupAppend(s[..k], [n]);
    NoDupAppend(s[..k] + [n], s[k..]);
  }

  lemma {:induction false} InsertChildren(t1: Tree, n: NodeId, parent: NodeId, next: Option<NodeId>, t': Tree)
    requires Valid(t1) && parent in t1.children && n !in t1.parentNode
    requires t' == Tree(t1.children[parent := InsertBefore(t1.children[parent], [n], next)], t1.parentNode[n := parent])
    ensures ChildrenHaveParent(t')
  {
    var s := t1.children[parent];
    forall p, m | p in t'.children && m in t'.children[p]
      ensures m in t'.parentNode && t'.parentNode[m] == p
    {
      if p != parent {
        assert m in t1.children[p];
        assert m != n;
      } else if m != n {
        assert m in s;
      }
    }
  }

  lemma {:induction false} InsertParents(t1: Tree, n: NodeId, parent: NodeId, next: Option<NodeId>, t': Tree)
    requires Valid(t1) && parent in t1.children && n !in t1.parentNode
    requires t' == Tree(t1.children[parent := InsertBefore(t1.children[parent], [n], next)], t1.parentNode[n := parent])
    ensures ParentsHaveChild(t')
  {
    forall m | m in t'.parentNode
      ensures t'.parentNode[m] in t'.children && m in t'.children[t'.parentNode[m]]
    {
      if m != n {
        var q := t1.parentNode[m];
        assert m in t1.children[q];
      }
    }
  }

  /** The node that follows `n` among its siblings, if any (`nextSibling`). */
  function NextSibling(t: Tree, n: NodeId): (r: Option<NodeId>)
    ensures r.Some? ==> n in t.parentNode && r.value in Kids(t, t.parentNode[n])
  {
    if n !in t.parentNode || n !in Kids(t, t.parentNode[n]) then None
    else
      var s := Kids(t, t.parentNode[n]);
      var i := IndexOf(s, n);
      if i + 1 < |s| then Some(s[i + 1]) else None
  }

  /** `a` is reached from `b` by following between 1 and `fuel` parent links. */
  function AncestorWithin(t: Tree, a: NodeId, b: NodeId, fuel: nat): bool
    decreases fuel
  {
    fuel > 0 && b in t.parentNode && (t.parentNode[b] == a || AncestorWithin(t, a, t.parentNode[b], fuel - 1))
  }

  /** `Blaze._elementContains(a, b)` (domrange.js:464-485): `a` is an element,
      is not `b`, and is a proper ancestor of `b`. The browser's
      `compareDocumentPosition`/`contains` test is stated over the parent
      links; a parent chain without repetition is never longer than the
      number of links, so the bound only cuts off cycles. */
  function ElementContains(t: Tree, a: NodeId, b: NodeId): bool {
    a.Element? && a != b && AncestorWithin(t, a, b, |t.parentNode|)
  }

  /** Inserting a node that had no place and removing it again gives back
      the tree. */
  lemma {:induction false} InsertThenRemove(t: Tree, n: NodeId, parent: NodeId, next: Option<NodeId>)
    requires Valid(t) && parent in t.children && n !in t.parentNode && next != Some(n)
    ensures Remove(Insert(t, n, parent, next), n) == t
  {
    InsertSpec(t, n, parent, next);
    var t' := Insert(t, n, parent, next);
    RemoveSpec(t', n);
    var t'' := Remove(t', n);
    forall q | q in t.children ensures t''.children[q] == t.children[q] {
      Unplaced(t, n, q);
      ListRoundTrip(t.children[q], n, next);
    }
    MapExt(t''.children, t.children);
    RemoveAfterUpdate(t.parentNode, n, parent);
  }

  lemma {:induction false} Unplaced(t: Tree, n: NodeId, p: NodeId)
    requires ChildrenHaveParent(t) && n !in t.parentNode && p in t.children
    ensures n !in t.children[p]
  {
  }

  lemma {:induction false} Placed(t: Tree, n: NodeId, p: NodeId)
    requires ChildrenHaveParent(t) && p in t.children && n in t.children[p]
    ensures n in t.parentNode
  {
  }

  lemma {:induction false} ListRoundTrip(s: seq<NodeId>, n: NodeId, next: Option<NodeId>)
    requires n !in s
    ensures Without(InsertBefore(Without(s, [n]), [n], next), [n]) == s
    ensures Without(Without(s, [n]), [n]) == s
  {
    WithoutNone(s, [n]);
    InsertRemoved(s, n, Anchor(s, next));
  }

  lemma {:induction false} InsertRemoved(s: seq<NodeId>, n: NodeId, k: nat)
    requires k <= |s| && n !in s
    ensures Without(s[..k] + [n] + s[k..], [n]) == s
  {
    assert s == s[..k] + s[k..];
    WithoutAppend(s[..k] + [n], s[k..], [n]);
    WithoutAppend(s[..k], [n], [n]);
    WithoutAll([n], [n]);
    WithoutNone(s[..k], [n]);
    WithoutNone(s[k..], [n]);
  }

  /** One node of a range being attached: `_insertNodeWithHooks` (a plain
      insertion, which takes the node from wherever it was) or, when
      `move` is set, `_moveNodeWithHooks`, which leaves a node that has no
      parent where it is (domrange.js:66-88). An empty range's placeholder
      is always inserted plainly, move or not (domrange.js:121-124). */
  function Place(t: Tree, n: NodeId, p: NodeId, next: Option<NodeId>, move: bool): Tree {
    if move && n !in t.parentNode && !n.Placeholder? then t else Insert(t, n, p, next)
  }

  /** The nodes `ns`, one after the other, each placed before `next`. */
  function PlaceAll(t: Tree, ns: seq<NodeId>, p: NodeId, next: Option<NodeId>, move: bool): Tree
    decreases |ns|
  {
    if ns == [] then t else PlaceAll(Place(t, ns[0], p, next, move), ns[1..], p, next, move)
  }

  /** The nodes `ns`, one after the other, each taken out of the tree. */
  function RemoveAll(t: Tree, ns: seq<NodeId>): Tree
    decreases |ns|
  {
    if ns == [] then t else RemoveAll(Remove(t, ns[0]), ns[1..])
  }

  /** Placing nodes keeps a tree well formed and keeps its containers. */
  lemma {:induction false} PlaceAllValid(t: Tree, ns: seq<NodeId>, p: NodeId, next: Option<NodeId>, move: bool)
    requires Valid(t) && p in t.children
    ensures Valid(PlaceAll(t, ns, p, next, move))
    ensures PlaceAll(t, ns, p, next, move).children.Keys == t.children.Keys
    decreases |ns|
  {
    if ns != [] {
      InsertShape(t, ns[0], p, next);
      PlaceAllValid(Place(t, ns[0], p, next, move), ns[1..], p, next, move);
    }
  }

  /** Removing nodes keeps a tree well formed and keeps its containers;
      the other nodes keep their parents. */
  lemma {:induction false} RemoveAllValid(t: Tree, ns: seq<NodeId>)
    requires Valid(t)
    ensures Valid(RemoveAll(t, ns))
    ensures RemoveAll(t, ns).children.Keys == t.children.Keys
    ensures forall m | m in t.parentNode && m !in ns :: m in RemoveAll(t, ns).parentNode && RemoveAll(t, ns).parentNode[m] == t.parentNode[m]
    ensures forall m | m in RemoveAll(t, ns).parentNode :: m in t.parentNode && m !in ns
    decreases |ns|
  {
    if ns != [] {
      RemoveSpec(t, ns[0]);
      RemoveAllValid(Remove(t, ns[0]), ns[1..]);
    }
  }

  lemma {:induction false} PlaceAllAppend(t: Tree, a: seq<NodeId>, b: seq<NodeId>, p: NodeId, next: Option<NodeId>, move: bool)
    ensures PlaceAll(t, a + b, p, next, move) == PlaceAll(PlaceAll(t, a, p, next, move), b, p, next, move)
    decreases |a|
  {
    if a == [] {
      assert a + b == b;
    } else {
      assert (a + b)[1..] == a[1..] + b;
      PlaceAllAppend(Place(t, a[0], p, next, move), a[1..], b, p, next, move);
    }
  }

  lemma {:induction false} RemoveAllAppend(t: Tree, a: seq<NodeId>, b: seq<NodeId>)
    ensures RemoveAll(t, a + b) == RemoveAll(RemoveAll(t, a), b)
    decreases |a|
  {
    if a == [] {
      assert a + b == b;
    } else {
      assert (a + b)[1..] == a[1..] + b;
      RemoveAllAppend(Remove(t, a[0]), a[1..], b);
    }
  }

  /** Attaching nodes that have no parent yet puts them, as one run and in
      order, before `next` (or at the end), and leaves the rest of the
      parent's child list as it was. */
  lemma {:induction false} PlaceAllFresh(t: Tree, ns: seq<NodeId>, p: NodeId, next: Option<NodeId>)
    requires Valid(t) && p in t.children && (next.Some? ==> next.value !in ns)
    requires NoDup(ns) && forall n | n in ns :: n !in t.parentNode
    ensures Kids(PlaceAll(t, ns, p, next, false), p) == InsertBefore(t.children[p], ns, next)
    decreases |ns|
  {
    var s := t.children[p];
    if ns == [] {
      assert s[..Anchor(s, next)] + s[Anchor(s, next)..] == s;
    } else {
      var n, rest := ns[0], ns[1..];
      assert ns == [n] + rest;
      NoDupAppend([n], rest);
      Unplaced(t, n, p);
      WithoutNone(s, [n]);
      InsertSpec(t, n, p, next);
      var t1 := Insert(t, n, p, next);
      assert t1.children[p] == InsertBefore(s, [n], next);
      assert forall m | m in rest :: m !in t1.parentNode;
      assert next.Some? ==> next.value !in rest;
      PlaceAllFresh(t1, rest, p, next);
      InsertTwice(s, [n], rest, next);
    }
  }

  /** Moving nodes that are all children of `p` takes them out of their
      places and puts them, as one run and in order, before `next`. */
  lemma {:induction false} PlaceAllMove(t: Tree, ns: seq<NodeId>, p: NodeId, next: Option<NodeId>, move: bool)
    requires Valid(t) && p in t.children && (next.Some? ==> next.value !in ns)
    requires NoDup(ns) && forall n | n in ns :: n in t.children[p]
    ensures Kids(PlaceAll(t, ns, p, next, move), p) == MoveBefore(t.children[p], ns, next)
    decreases |ns|
  {
    var s := t.children[p];
    if ns == [] {
      assert Without(s, ns) == s by {
        WithoutNone(s, ns);
      }
      assert s[..Anchor(s, next)] + s[Anchor(s, next)..] == s;
    } else {
      var n, rest := ns[0], ns[1..];
      assert ns == [n] + rest;
      NoDupAppend([n], rest);
      assert n in t.parentNode by {
        assert n in ns;
        assert ChildrenHaveParent(t);
      }
      var t1 := Insert(t, n, p, next);
      InsertSpec(t, n, p, next);
      MoveStep(s, n, rest, next);
      assert next.Some? ==> next.value !in rest;
      assert Place(t, n, p, next, move) == t1;
      PlaceAllMove(t1, rest, p, next, move);
      assert Disjoint([n], rest);
      assert next.Some? ==> next.value !in [n];
      MoveTwice(s, [n], rest, next);
    }
  }

  lemma {:induction false} MoveStep(s: seq<NodeId>, n: NodeId, rest: seq<NodeId>, next: Option<NodeId>)
    requires n !in rest && forall m | m in rest :: m in s
    ensures forall m | m in rest :: m in MoveBefore(s, [n], next)
  {
    forall m | m in rest ensures m in MoveBefore(s, [n], next) {
      WithoutMember(s, [n], m);
      InsertBeforeMember(Without(s, [n]), [n], next, m);
    }
  }

  /** Removing a run of a child list, node by node, leaves what was around
      it. */
  lemma {:induction false} RemoveAllRun(t: Tree, p: NodeId, a: seq<NodeId>, ns: seq<NodeId>, b: seq<NodeId>)
    requires Valid(t) && p in t.children && t.children[p] == a + ns + b
    ensures Kids(RemoveAll(t, ns), p) == a + b
    decreases |ns|
  {
    if ns == [] {
      assert a + ns + b == a + b;
    } else {
      var n, rest := ns[0], ns[1..];
      var t1 := Remove(t, n);
      assert Valid(t1) && p in t1.children && t1.children[p] == a + rest + b by {
        assert ns == [n] + rest;
        Assoc(a, [n], rest, b);
        Assoc3(a + [n], rest, b);
        RemoveSpec(t, n);
        assert t1.children[p] == Without(a + [n] + (rest + b), [n]);
        WithoutRun(a, [n], rest + b);
        Assoc3(a, rest, b);
      }
      RemoveAllRun(t1, p, a, rest, b);
    }
  }

  /** Placing fresh nodes under `p` and then removing them gives `p` back
      its children. */
  lemma {:induction false} PlaceThenRemoveAll(t: Tree, ns: seq<NodeId>, p: NodeId, next: Option<NodeId>)
    requires Valid(t) && p in t.children && (next.Some? ==> next.value !in ns)
    requires NoDup(ns) && forall n | n in ns :: n !in t.parentNode
    ensures Kids(RemoveAll(PlaceAll(t, ns, p, next, false), ns), p) == t.children[p]
  {
    var s, t1 := t.children[p], PlaceAll(t, ns, p, next, false);
    var k := Anchor(s, next);
    assert Valid(t1) && p in t1.children && t1.children[p] == s[..k] + ns + s[k..] by {
      PlaceAllFresh(t, ns, p, next);
      PlaceAllValid(t, ns, p, next, false);
    }
    SplitAtAnchor(s, next);
    RemoveAllRun(t1, p, s[..k], ns, s[k..]);
  }

  /** Placing fresh nodes under `p` gives each of them the parent `p` and
      touches no other child list and no other parent pointer. */
  lemma {:induction false} PlaceAllFreshTree(t: Tree, ns: seq<NodeId>, p: NodeId, next: Option<NodeId>)
    requires Valid(t) && p in t.children && (next.Some? ==> next.value !in ns)
    requires NoDup(ns) && forall n | n in ns :: n !in t.parentNode
    ensures PlaceAll(t, ns, p, next, false).children.Keys == t.children.Keys
    ensures forall q | q in t.children && q != p :: PlaceAll(t, ns, p, next, false).children[q] == t.children[q]
    ensures forall m :: m in PlaceAll(t, ns, p, next, false).parentNode <==> m in t.parentNode || m in ns
    ensures forall m | m in t.parentNode :: PlaceAll(t, ns, p, next, false).parentNode[m] == t.parentNode[m]
    decreases |ns|
  {
    if ns != [] {
      var n, rest := ns[0], ns[1..];
      assert ns == [n] + rest;
      NoDupAppend([n], rest);
      InsertSpec(t, n, p, next);
      var t1 := Insert(t, n, p, next);
      forall q | q in t.children && q != p ensures t1.children[q] == t.children[q] {
        Apart(t, n, q);
      }
      assert forall m | m in rest :: m !in t1.parentNode;
      PlaceAllFreshTree(t1, rest, p, next);
    }
  }

  /** Removing nodes that are not in a child list leaves that list alone. */
  lemma {:induction false} RemoveAllKeeps(t: Tree, ns: seq<NodeId>, q: NodeId)
    requires Valid(t) && q in t.children && Disjoint(t.children[q], ns)
    ensures q in RemoveAll(t, ns).children && RemoveAll(t, ns).children[q] == t.children[q]
    decreases |ns|
  {
    if ns != [] {
      RemoveSpec(t, ns[0]);
      WithoutNone(t.children[q], [ns[0]]);
      RemoveAllKeeps(Remove(t, ns[0]), ns[1..], q);
    }
  }

  /** Placing fresh nodes under `p` and then removing them gives back the
      whole tree: every child list and every parent pointer. */
  lemma {:induction false} PlaceThenRemoveAllTree(t: Tree, ns: seq<NodeId>, p: NodeId, next: Option<NodeId>)
    requires Valid(t) && p in t.children && (next.Some? ==> next.value !in ns)
    requires NoDup(ns) && forall n | n in ns :: n !in t.parentNode
    ensures RemoveAll(PlaceAll(t, ns, p, next, false), ns) == t
  {
    var t2 := RemoveAll(PlaceAll(t, ns, p, next, false), ns);
    ChildrenBack(t, ns, p, next);
    ParentsBack(t, ns, p, next);
    assert t2 == Tree(t2.children, t2.parentNode);
  }

  lemma {:induction false} ChildrenBack(t: Tree, ns: seq<NodeId>, p: NodeId, next: Option<NodeId>)
    requires Valid(t) && p in t.children && (next.Some? ==> next.value !in ns)
    requires NoDup(ns) && forall n | n in ns :: n !in t.parentNode
    ensures RemoveAll(PlaceAll(t, ns, p, next, false), ns).children == t.children
  {
    var t1 := PlaceAll(t, ns, p, next, false);
    var t2 := RemoveAll(t1, ns);
    PlaceAllFreshTree(t, ns, p, next);
    PlaceAllValid(t, ns, p, next, false);
    RemoveAllValid(t1, ns);
    PlaceThenRemoveAll(t, ns, p, next);
    forall q | q in t.children ensures t2.children[q] == t.children[q] {
      if q != p {
        KeptApart(t, t1, ns, q);
        RemoveAllKeeps(t1, ns, q);
      }
    }
    MapExt(t2.children, t.children);
  }

  /** A child list that placing new nodes left alone holds none of them. */
  lemma {:induction false} KeptApart(t: Tree, t1: Tree, ns: seq<NodeId>, q: NodeId)
    requires ChildrenHaveParent(t) && q in t.children && q in t1.children && t1.children[q] == t.children[q]
    requires forall n | n in ns :: n !in t.parentNode
    ensures Disjoint(t1.children[q], ns)
  {
    forall n | n in t1.children[q] ensures n !in ns {
      assert n in t.children[q];
    }
  }

  lemma {:induction false} ParentsBack(t: Tree, ns: seq<NodeId>, p: NodeId, next: Option<NodeId>)
    requires Valid(t) && p in t.children && (next.Some? ==> next.value !in ns)
    requires NoDup(ns) && forall n | n in ns :: n !in t.parentNode
    ensures RemoveAll(PlaceAll(t, ns, p, next, false), ns).parentNode == t.parentNode
  {
    var t1 := PlaceAll(t, ns, p, next, false);
    var t2 := RemoveAll(t1, ns);
    PlaceAllFreshTree(t, ns, p, next);
    PlaceAllValid(t, ns, p, next, false);
    RemoveAllValid(t1, ns);
    MapExt(t2.parentNode, t.parentNode);
  }

  /** A run of `p`'s children splits them into what comes before it, the
      run and what comes after it, with no node twice. */
  lemma {:induction false} RunSplit(t: Tree, p: NodeId, f: seq<NodeId>)
    requires Valid(t) && p in t.children && Run(t.children[p], f)
    ensures var s := t.children[p]; var k := IndexOf(s, f[0]);
      s == s[..k] + f + s[k + |f|..] && NoDup(s[..k] + f + s[k + |f|..])
  {
    RunParts(t.children[p], f);
  }

  /** The node after the last of a run of `p`'s children is the first node
      after the run, or none when the run ends the list. */
  lemma {:induction false} NextAfterRun(t: Tree, p: NodeId, a: seq<NodeId>, ns: seq<NodeId>, b: seq<NodeId>)
    requires Valid(t) && p in t.children && t.children[p] == a + ns + b && ns != []
    ensures NextSibling(t, ns[|ns| - 1]) == if b == [] then None else Some(b[0])
  {
    var s, i := t.children[p], |a| + |ns| - 1;
    var n := ns[|ns| - 1];
    assert s[i] == n;
    assert n in t.parentNode && t.parentNode[n] == p;
    assert n !in s[..i] by {
      forall j | 0 <= j < i ensures s[j] != n {
        NoDupAt(s, j, i);
      }
    }
    IndexOfAt(s, n, i);
    if b != [] {
      assert s[i + 1] == b[0];
    }
  }

  /** Taking a run out of `p`'s children and placing nodes that are not in
      the tree (or were in the run) before the node that followed it puts
      the new nodes where the run was. */
  lemma {:induction false} ReplaceRun(t: Tree, p: NodeId, a: seq<NodeId>, ns: seq<NodeId>, b: seq<NodeId>, ns': seq<NodeId>)
    requires Valid(t) && p in t.children && t.children[p] == a + ns + b
    requires NoDup(ns') && forall n | n in ns' :: n !in t.parentNode || n in ns
    ensures var next := if b == [] then None else Some(b[0]);
      Kids(PlaceAll(RemoveAll(t, ns), ns', p, next, false), p) == a + ns' + b
  {
    var next: Option<NodeId> := if b == [] then None else Some(b[0]);
    var t1 := RemoveAll(t, ns);
    RemoveAllValid(t, ns);
    RemoveAllRun(t, p, a, ns, b);
    assert NoDup(a + ns + b);
    NoDupAppend(a + ns, b);
    NoDupAppend(a, ns);
    assert next.Some? ==> next.value !in a && next.value !in ns' by {
      if b != [] {
        assert b[0] in b;
        assert b[0] in t.parentNode;
      }
    }
    PlaceAllFresh(t1, ns', p, next);
    InsertAt(a, b, ns', next);
  }

  /** Replacing a run of `p`'s children by itself changes nothing. */
  lemma {:induction false} KeepRun(t: Tree, p: NodeId, f: seq<NodeId>)
    requires Valid(t) && p in t.children && Run(Kids(t, p), f)
    ensures Replace(Kids(t, p), f, f) == Kids(t, p)
  {
    var s := t.children[p];
    var k := IndexOf(s, f[0]);
    RunSplit(t, p, f);
    RunIn(s[..k], f, s[k + |f|..], f);
  }

  /** Taking a run out of `p`'s children and placing nodes that are not in
      the tree (or were in the run) before the node that followed its last
      node puts them, as one run, where the old run was. */
  lemma {:induction false} ReplaceRunAt(t0: Tree, p: NodeId, f: seq<NodeId>, f': seq<NodeId>, t: Tree)
    requires Valid(t0) && p in t0.children && Run(Kids(t0, p), f)
    requires NoDup(f') && f' != [] && forall n | n in f' :: n !in t0.parentNode || n in f
    requires t == PlaceAll(RemoveAll(t0, f), f', p, NextSibling(t0, f[|f| - 1]), false)
    ensures Kids(t, p) == Replace(Kids(t0, p), f, f') && Run(Kids(t, p), f')
  {
    var s := t0.children[p];
    var k := IndexOf(s, f[0]);
    var a, b := s[..k], s[k + |f|..];
    RunSplit(t0, p, f);
    RunIn(a, f, b, f');
    NextAfterRun(t0, p, a, f, b);
    ReplaceRun(t0, p, a, f, b, f');
    RemoveAllValid(t0, f);
    PlaceAllValid(RemoveAll(t0, f), f', p, NextSibling(t0, f[|f| - 1]), false);
    RunIn(a, f', b, f');
  }

  /** Taking the middle part `g` of a run `x + g + y` of `p`'s children out
      of the tree leaves `x + y` as one run in its place. */
  lemma {:induction false} RemoveInRun(t0: Tree, p: NodeId, x: seq<NodeId>, g: seq<NodeId>, y: seq<NodeId>, t: Tree)
    requires Valid(t0) && p in t0.children && Run(Kids(t0, p), x + g + y) && x + y != []
    requires t == RemoveAll(t0, g)
    ensures Kids(t, p) == Replace(Kids(t0, p), x + g + y, x + y) && Run(Kids(t, p), x + y)
  {
    var s, f := t0.children[p], x + g + y;
    var k := IndexOf(s, f[0]);
    var a, b := s[..k], s[k + |f|..];
    RunSplit(t0, p, f);
    RunIn(a, f, b, x + y);
    Regroup(a, x, g, y, b);
    RemoveAllRun(t0, p, a + x, g, y + b);
    RemoveAllValid(t0, g);
    RunIn(a, x + y, b, x + y);
  }

  /** Appending fresh nodes `g` at the end of a run `x`, before the node
      after it, extends the run in place. */
  lemma {:induction false} AppendInRun(t0: Tree, p: NodeId, x: seq<NodeId>, g: seq<NodeId>, next: Option<NodeId>, t: Tree)
    requires Valid(t0) && p in t0.children && Run(Kids(t0, p), x) && x != []
    requires NoDup(x + g) && forall n | n in x + g :: n !in t0.parentNode || n in x
    requires next == NextSibling(t0, x[|x| - 1]) && t == PlaceAll(t0, g, p, next, false)
    ensures Kids(t, p) == Replace(Kids(t0, p), x, x + g) && Run(Kids(t, p), x + g)
  {
    assert x + [] == x && x + g + [] == x + g;
    InsertInRun(t0, p, x, g, [], next, t);
  }

  /** Placing fresh nodes `g` inside a run `x + y` of `p`'s children, before
      the first node of `y` (or, when `y` is empty, before the node that
      followed the run), leaves `x + g + y` as one run in its place. */
  lemma {:induction false} InsertInRun(t0: Tree, p: NodeId, x: seq<NodeId>, g: seq<NodeId>, y: seq<NodeId>,
                                       next: Option<NodeId>, t: Tree)
    requires Valid(t0) && p in t0.children && Run(Kids(t0, p), x + y)
    requires NoDup(x + g + y) && forall n | n in x + g + y :: n !in t0.parentNode || n in x + y
    requires y != [] ==> next == Some(y[0])
    requires y == [] ==> x != [] && next == NextSibling(t0, x[|x| - 1])
    requires t == PlaceAll(t0, g, p, next, false)
    ensures Kids(t, p) == Replace(Kids(t0, p), x + y, x + g + y) && Run(Kids(t, p), x + g + y)
  {
    assert y == [] ==> x != [] && next == NextSibling(t0, x[|x| - 1]);
    var a, b := RunAround(t0, p, x, g, y);
    AnchorInRun(t0, p, a, x, y, b, next);
    FreshPart(t0, x, g, y);
    PlaceBetween(t0, p, a + x, y + b, g, next, t);
    PlaceAllValid(t0, g, p, next, false);
    Regroup(a, x, g, y, b);
    assert NoDup(a + (x + g + y) + b) by {
      assert ListsNoDup(t);
    }
    RunIn(a, x + g + y, b, x + g + y);
  }

  /** The parts `a` before and `b` after a run `x + y` of `p`'s children. */
  lemma {:induction false} RunAround(t0: Tree, p: NodeId, x: seq<NodeId>, g: seq<NodeId>, y: seq<NodeId>)
    returns (a: seq<NodeId>, b: seq<NodeId>)
    requires Valid(t0) && p in t0.children && Run(Kids(t0, p), x + y)
    ensures t0.children[p] == (a + x) + (y + b)
    ensures Replace(Kids(t0, p), x + y, x + g + y) == a + (x + g + y) + b
  {
    var s, f := t0.children[p], x + y;
    var k := IndexOf(s, f[0]);
    a, b := s[..k], s[k + |f|..];
    RunSplit(t0, p, f);
    RunIn(a, f, b, x + g + y);
    Regroup(a, x, g, y, b);
  }

  /** The anchor before which nodes go into a run `x + y` of `p`'s
      children `a + x + y + b` heads `y + b` and is not in `a + x`. */
  lemma {:induction false} AnchorInRun(t0: Tree, p: NodeId, a: seq<NodeId>, x: seq<NodeId>, y: seq<NodeId>, b: seq<NodeId>,
                                       next: Option<NodeId>)
    requires Valid(t0) && p in t0.children && t0.children[p] == (a + x) + (y + b)
    requires y != [] ==> next == Some(y[0])
    requires y == [] ==> x != [] && next == NextSibling(t0, x[|x| - 1])
    ensures HeadedBy(y + b, next) && (next.Some? ==> next.value !in a + x && next.value in (a + x) + (y + b))
  {
    var s := t0.children[p];
    assert NoDup(s) by {
      assert ListsNoDup(t0);
    }
    if y == [] {
      assert y + b == b;
      NextAfterRun(t0, p, a, x, b);
      if b != [] {
        NoDupHead(a + x, b);
      }
    } else {
      NoDupHead(a + x, y + b);
    }
  }

  /** Placing fresh nodes `g` before `next`, where `next` heads the part
      `v` of `p`'s children `u + v`, puts them between `u` and `v`. */
  lemma {:induction false} PlaceBetween(t0: Tree, p: NodeId, u: seq<NodeId>, v: seq<NodeId>, g: seq<NodeId>,
                                        next: Option<NodeId>, t: Tree)
    requires Valid(t0) && p in t0.children && t0.children[p] == u + v
    requires NoDup(g) && forall n | n in g :: n !in t0.parentNode
    requires HeadedBy(v, next) && (next.Some? ==> next.value !in u && next.value in u + v)
    requires t == PlaceAll(t0, g, p, next, false)
    ensures Kids(t, p) == u + g + v
  {
    if next.Some? {
      Placed(t0, next.value, p);
    }
    PlaceAllFresh(t0, g, p, next);
    InsertAt(u, v, g, next);
  }

  /** The middle part of a duplicate-free run whose nodes are either new
      or among the two outer parts is new. */
  lemma {:induction false} FreshPart(t: Tree, x: seq<NodeId>, g: seq<NodeId>, y: seq<NodeId>)
    requires NoDup(x + g + y) && forall n | n in x + g + y :: n !in t.parentNode || n in x + y
    ensures NoDup(g) && forall n | n in g :: n !in t.parentNode
  {
    NoDupAppend(x + g, y);
    NoDupAppend(x, g);
    forall n | n in g ensures n !in t.parentNode {
      assert n in x + g + y;
      assert n !in x && n !in y;
    }
  }

  /** Moving the nodes `g` of a run `x + g + y` of `p`'s children before
      `next`, where `x + y` is also `u + v` and `next` heads `v` (or, when
      `v` is empty, follows the run), leaves the run as `u + g + v`, in
      its place. */
  lemma {:induction false} MoveInRun(t0: Tree, p: NodeId, x: seq<NodeId>, g: seq<NodeId>, y: seq<NodeId>,
                                     u: seq<NodeId>, v: seq<NodeId>, next: Option<NodeId>, t: Tree)
    requires Valid(t0) && p in t0.children && Run(Kids(t0, p), x + g + y) && g != [] && x + y == u + v
    requires v != [] ==> next == Some(v[0])
    requires v == [] ==> y != [] && next == NextSibling(t0, y[|y| - 1])
    requires t == PlaceAll(t0, g, p, next, true)
    ensures Kids(t, p) == Replace(Kids(t0, p), x + g + y, u + g + v) && Run(Kids(t, p), u + g + v)
  {
    var f := x + g + y;
    var k := IndexOf(t0.children[p], f[0]);
    var a, b := t0.children[p][..k], t0.children[p][k + |f|..];
    RunSplit(t0, p, f);
    MoveAround(t0, p, a, x, g, y, b, u, v, next);
    PlaceAllMove(t0, g, p, next, true);
    MovedList(a, x, g, y, b, u, v, next);
    assert Kids(t, p) == a + (u + g + v) + b;
    assert NoDup(Kids(t, p)) by {
      PlaceAllValid(t0, g, p, next, true);
      assert ListsNoDup(t);
    }
    RunIn(a, f, b, u + g + v);
    RunIn(a, u + g + v, b, u + g + v);
  }

  /** The anchor of a move inside a run: it follows what comes before the
      run and `u`, heads what follows, and is not moved itself. */
  lemma {:induction false} MoveAround(t0: Tree, p: NodeId, a: seq<NodeId>, x: seq<NodeId>, g: seq<NodeId>, y: seq<NodeId>,
                                      b: seq<NodeId>, u: seq<NodeId>, v: seq<NodeId>, next: Option<NodeId>)
    requires Valid(t0) && p in t0.children && t0.children[p] == a + (x + g + y) + b
    requires NoDup(a + (x + g + y) + b) && x + y == u + v
    requires v != [] ==> next == Some(v[0])
    requires v == [] ==> y != [] && next == NextSibling(t0, y[|y| - 1])
    ensures next.Some? ==> next.value !in g && next.value !in a + u
    ensures HeadedBy(v + b, next)
    ensures NoDup(g) && forall n | n in g :: n in t0.children[p]
  {
    var s := t0.children[p];
    SameJoin(a, x, g, y, b, u, v);
    if v == [] {
      Regroup(a + x, [], g, y, b);
      assert s == (a + x + g) + y + b;
      NextAfterRun(t0, p, a + x + g, y, b);
      assert v + b == b;
      if b != [] {
        NoDupHead(a + u, b);
        assert b[0] in (a + u) + (v + b);
      }
    } else {
      NoDupHead(a + u, v + b);
      assert v[0] in (a + u) + (v + b);
    }
    forall n | n in g ensures n in s {
      assert n in (a + x) + g + (y + b);
    }
  }

  /** Regrouping the nodes around a run whose outside parts split two
      ways; without the run they stay distinct and apart from it. */
  lemma {:induction false} SameJoin(a: seq<NodeId>, x: seq<NodeId>, g: seq<NodeId>, y: seq<NodeId>, b: seq<NodeId>,
                                    u: seq<NodeId>, v: seq<NodeId>)
    requires NoDup(a + (x + g + y) + b) && x + y == u + v
    ensures a + (x + g + y) + b == (a + x) + g + (y + b)
    ensures (a + x) + (y + b) == (a + u) + (v + b)
    ensures NoDup((a + u) + (v + b)) && NoDup(g) && Disjoint((a + u) + (v + b), g)
  {
    Regroup(a, x, g, y, b);
    Regroup(a, u, g, v, b);
    var c, d := a + x, y + b;
    NoDupAppend(c + g, d);
    NoDupAppend(c, g);
    NoDupAppend(c, d);
    forall n | n in c + d ensures n !in g {
      assert n in g ==> n in c + g;
    }
  }

  /** `MoveBefore` on the list: taking the run `g` out and putting it
      back before `next`. */
  lemma {:induction false} MovedList(a: seq<NodeId>, x: seq<NodeId>, g: seq<NodeId>, y: seq<NodeId>, b: seq<NodeId>,
                                     u: seq<NodeId>, v: seq<NodeId>, next: Option<NodeId>)
    requires NoDup(a + (x + g + y) + b) && x + y == u + v
    requires next.Some? ==> next.value !in a + u
    requires HeadedBy(v + b, next)
    ensures MoveBefore(a + (x + g + y) + b, g, next) == a + (u + g + v) + b
  {
    SameJoin(a, x, g, y, b, u, v);
    WithoutRun(a + x, g, y + b);
    InsertAt(a + u, v + b, g, next);
    Regroup(a, u, g, v, b);
  }
}
