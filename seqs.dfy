/** Small sequence vocabulary shared by the host tree and the range model:
    duplicate-freedom, first occurrence, filtering a set of nodes out of a
    child list, and inserting or moving a run of nodes before an anchor. */
module Seqs {
  import opened Util

  /** No element occurs twice. */
  ghost predicate NoDup<T>(s: seq<T>) {
    forall x | x in multiset(s) :: multiset(s)[x] == 1
  }

  ghost predicate Disjoint<T>(a: seq<T>, b: seq<T>) {
    forall x | x in a :: x !in b
  }

  /** Position of the first occurrence of `x` in `s`. */
  function IndexOf<T(==)>(s: seq<T>, x: T): (k: nat)
    requires x in s
    ensures k < |s| && s[k] == x && x !in s[..k]
  {
    if s[0] == x then 0
    else
      var k := 1 + IndexOf(s[1..], x);
      assert s[..k] == [s[0]] + s[1..][..k - 1];
      k
  }

  /** `s` with every element of `xs` filtered out, order kept. */
  function Without<T(==)>(s: seq<T>, xs: seq<T>): (r: seq<T>)
    ensures |r| <= |s|
  {
    if s == [] then []
    else (if s[0] in xs then [] else [s[0]]) + Without(s[1..], xs)
  }

  /** What is left after filtering is exactly what was there and was not
      filtered out. */
  lemma {:induction false} WithoutMember<T>(s: seq<T>, xs: seq<T>, y: T)
    ensures y in Without(s, xs) <==> y in s && y !in xs
  {
    if s != [] {
      WithoutMember(s[1..], xs, y);
      assert s == [s[0]] + s[1..];
    }
  }

  lemma {:induction false} WithoutMembers<T>(s: seq<T>, xs: seq<T>)
    ensures forall y | y in Without(s, xs) :: y in s && y !in xs
    ensures forall y | y in s && y !in xs :: y in Without(s, xs)
  {
    forall y | y in Without(s, xs) ensures y in s && y !in xs {
      WithoutMember(s, xs, y);
    }
    forall y | y in s && y !in xs ensures y in Without(s, xs) {
      WithoutMember(s, xs, y);
    }
  }

  /** Where a node inserted "before `next`" lands: just before `next`, or at
      the end when there is no `next` (the host's `insertBefore(n, null)`). */
  function Anchor<T(==)>(s: seq<T>, next: Option<T>): (k: nat)
    ensures k <= |s|
    ensures next.Some? && next.value in s ==> k < |s| && s[k] == next.value && next.value !in s[..k]
    ensures !(next.Some? && next.value in s) ==> k == |s|
  {
    if next.Some? && next.value in s then IndexOf(s, next.value) else |s|
  }

  /** Insert the run `xs` before `next`. */
  function InsertBefore<T(==)>(s: seq<T>, xs: seq<T>, next: Option<T>): (r: seq<T>)
    ensures |r| == |s| + |xs|
  {
    var k := Anchor(s, next);
    s[..k] + xs + s[k..]
  }

  /** Inserting keeps what was there and adds the run. */
  lemma {:induction false} InsertBeforeMember<T>(s: seq<T>, xs: seq<T>, next: Option<T>, y: T)
    ensures y in InsertBefore(s, xs, next) <==> y in s || y in xs
  {
    var k := Anchor(s, next);
    assert s == s[..k] + s[k..];
  }

  /** Take the nodes of `xs` out of `s` and put them back, in the order of
      `xs`, before `next`: what host moves of each node, one after the
      other, do. */
  function MoveBefore<T(==)>(s: seq<T>, xs: seq<T>, next: Option<T>): seq<T> {
    InsertBefore(Without(s, xs), xs, next)
  }

  /** `f` occurs in `s` as one contiguous run starting at its first node. */
  ghost predicate Run<T>(s: seq<T>, f: seq<T>) {
    f != [] && f[0] in s &&
    var k := IndexOf(s, f[0]);
    k + |f| <= |s| && s[k..k + |f|] == f
  }

  /** Replace the run `f` of `s` by `g`. */
  ghost function Replace<T>(s: seq<T>, f: seq<T>, g: seq<T>): seq<T>
    requires Run(s, f)
  {
    var k := IndexOf(s, f[0]);
    s[..k] + g + s[k + |f|..]
  }

  lemma {:induction false} NoDupAppend<T>(a: seq<T>, b: seq<T>)
    ensures NoDup(a + b) <==> NoDup(a) && NoDup(b) && Disjoint(a, b)
  {
    var m := multiset(a + b);
    assert m == multiset(a) + multiset(b);
    if NoDup(a + b) {
      forall x | x in a ensures x !in b && multiset(a)[x] == 1 {
        assert x in m;
      }
      forall x | x in multiset(b) ensures multiset(b)[x] == 1 {
        assert x in m;
      }
    }
    if NoDup(a) && NoDup(b) && Disjoint(a, b) {
      forall x | x in m ensures m[x] == 1 {
        if x in a {
          assert x !in multiset(b);
        } else {
          assert x !in multiset(a);
        }
      }
    }
  }

  /** Dropping the middle of a duplicate-free sequence keeps it so. */
  lemma {:induction false} NoDupDrop<T>(a: seq<T>, b: seq<T>, c: seq<T>)
    requires NoDup(a + b + c)
    ensures NoDup(a + c)
  {
    NoDupAppend(a + b, c);
    NoDupAppend(a, b);
    NoDupAppend(a, c);
  }

  /** Two positions of a duplicate-free sequence hold different elements. */
  lemma {:induction false} NoDupAt<T>(s: seq<T>, i: nat, j: nat)
    requires NoDup(s) && i < j < |s|
    ensures s[i] != s[j]
  {
    assert s == s[..j] + s[j..];
    NoDupAppend(s[..j], s[j..]);
    assert s[i] == s[..j][i] && s[..j][i] in s[..j];
    assert s[j] == s[j..][0] && s[j..][0] in s[j..];
  }

  lemma {:induction false} DisjointSym<T>(a: seq<T>, b: seq<T>)
    requires Disjoint(a, b)
    ensures Disjoint(b, a)
  {
  }

  /** The first occurrence is where the element is and was not before. */
  lemma {:induction false} IndexOfAt<T>(s: seq<T>, x: T, i: nat)
    requires i < |s| && s[i] == x && x !in s[..i]
    ensures IndexOf(s, x) == i
  {
    if i > 0 {
      assert s[0] in s[..i];
      assert s[1..][..i - 1] == s[..i][1..];
      IndexOfAt(s[1..], x, i - 1);
    }
  }

  /** `q` starts with `next`, or is empty when `next` is not in it. */
  ghost predicate HeadedBy<T>(q: seq<T>, next: Option<T>) {
    (next.Some? && next.value in q ==> q[0] == next.value) &&
    (!(next.Some? && next.value in q) ==> q == [])
  }

  lemma {:induction false} HeadedByWithout<T>(q: seq<T>, ys: seq<T>, next: Option<T>)
    requires HeadedBy(q, next)
    requires next.Some? ==> next.value !in ys
    ensures HeadedBy(Without(q, ys), next)
  {
    if q != [] {
      assert q == [q[0]] + q[1..];
      WithoutAppend([q[0]], q[1..], ys);
      WithoutMember(q, ys, next.value);
    } else {
      assert Without(q, ys) == [];
    }
  }

  /** Inserting before `next` into `p + q`, where `next` heads `q` (or is
      absent and `q` is empty), lands between `p` and `q`. */
  lemma {:induction false} InsertAt<T>(p: seq<T>, q: seq<T>, xs: seq<T>, next: Option<T>)
    requires next.Some? ==> next.value !in p
    requires HeadedBy(q, next)
    ensures InsertBefore(p + q, xs, next) == p + xs + q
  {
    if next.Some? && next.value in q {
      assert (p + q)[..|p|] == p;
      IndexOfAt(p + q, next.value, |p|);
    } else {
      assert next.Some? ==> next.value !in p + q;
    }
  }

  /** The two halves of a sequence around the anchor of `next`. */
  lemma {:induction false} SplitAtAnchor<T>(s: seq<T>, next: Option<T>)
    ensures var k := Anchor(s, next);
      s == s[..k] + s[k..] &&
      (next.Some? ==> next.value !in s[..k]) &&
      HeadedBy(s[k..], next)
  {
    var k := Anchor(s, next);
    assert s == s[..k] + s[k..];
    if next.Some? && next.value in s {
      assert s[k..][0] == next.value;
    } else {
      assert s[k..] == [];
    }
  }

  lemma {:induction false} WithoutAppend<T>(a: seq<T>, b: seq<T>, xs: seq<T>)
    ensures Without(a + b, xs) == Without(a, xs) + Without(b, xs)
  {
    if a == [] {
      assert a + b == b;
    } else {
      assert (a + b)[1..] == a[1..] + b;
      WithoutAppend(a[1..], b, xs);
    }
  }

  lemma {:induction false} WithoutNone<T>(a: seq<T>, xs: seq<T>)
    requires Disjoint(a, xs)
    ensures Without(a, xs) == a
  {
    if a != [] {
      WithoutNone(a[1..], xs);
    }
  }

  lemma {:induction false} WithoutAll<T>(a: seq<T>, xs: seq<T>)
    requires forall y | y in a :: y in xs
    ensures Without(a, xs) == []
  {
    if a != [] {
      WithoutAll(a[1..], xs);
    }
  }

  lemma {:induction false} WithoutTwice<T>(s: seq<T>, xs: seq<T>, ys: seq<T>)
    ensures Without(Without(s, xs), ys) == Without(s, xs + ys)
  {
    if s != [] {
      WithoutTwice(s[1..], xs, ys);
      var h := if s[0] in xs then [] else [s[0]];
      WithoutAppend(h, Without(s[1..], xs), ys);
    }
  }

  lemma {:induction false} WithoutNoDup<T>(s: seq<T>, xs: seq<T>)
    requires NoDup(s)
    ensures NoDup(Without(s, xs))
  {
    if s != [] {
      assert s == [s[0]] + s[1..];
      NoDupAppend([s[0]], s[1..]);
      WithoutNoDup(s[1..], xs);
      WithoutMember(s[1..], xs, s[0]);
      var h := if s[0] in xs then [] else [s[0]];
      NoDupAppend(h, Without(s[1..], xs));
    }
  }

  /** Inserting two runs one after the other before the same anchor inserts
      their concatenation. */
  lemma {:induction false} InsertTwice<T>(s: seq<T>, xs: seq<T>, ys: seq<T>, next: Option<T>)
    requires next.Some? ==> next.value !in xs
    ensures InsertBefore(InsertBefore(s, xs, next), ys, next) == InsertBefore(s, xs + ys, next)
  {
    var k := Anchor(s, next);
    SplitAtAnchor(s, next);
    var p, q := s[..k], s[k..];
    InsertAt(p, q, xs, next);
    InsertAt(p + xs, q, ys, next);
    InsertAt(p, q, xs + ys, next);
    Assoc(p, xs, ys, q);
  }

  /** Moving two disjoint runs one after the other before the same anchor
      moves their concatenation. */
  lemma {:induction false} MoveTwice<T>(s: seq<T>, xs: seq<T>, ys: seq<T>, next: Option<T>)
    requires Disjoint(xs, ys)
    requires next.Some? ==> next.value !in xs && next.value !in ys
    ensures MoveBefore(MoveBefore(s, xs, next), ys, next) == MoveBefore(s, xs + ys, next)
  {
    var w := Without(s, xs);
    var k := Anchor(w, next);
    SplitAtAnchor(w, next);
    var w1, w2 := w[..k], w[k..];
    var u1, u2 := Without(w1, ys), Without(w2, ys);
    var m := MoveBefore(s, xs, next);
    assert m == w1 + xs + w2 by {
      InsertAt(w1, w2, xs, next);
    }
    assert HeadedBy(u2, next) by {
      HeadedByWithout(w2, ys, next);
    }
    assert MoveBefore(m, ys, next) == (u1 + xs) + ys + u2 by {
      MoveTwiceSplit(w1, w2, xs, ys);
      if next.Some? {
        WithoutMember(w1, ys, next.value);
      }
      InsertAt(u1 + xs, u2, ys, next);
    }
    assert MoveBefore(s, xs + ys, next) == u1 + (xs + ys) + u2 by {
      MoveTwiceSplit(w1, w2, xs, ys);
      WithoutTwice(s, xs, ys);
      if next.Some? {
        WithoutMember(w1, ys, next.value);
      }
      InsertAt(u1, u2, xs + ys, next);
    }
    Assoc(u1, xs, ys, u2);
  }

  lemma {:induction false} Assoc3<T>(x: seq<T>, y: seq<T>, z: seq<T>)
    ensures x + (y + z) == (x + y) + z
  {
  }

  lemma {:induction false} Assoc<T>(a: seq<T>, b: seq<T>, c: seq<T>, d: seq<T>)
    ensures (a + b) + c + d == a + (b + c) + d
  {
  }

  lemma {:induction false} MoveTwiceSplit<T>(w1: seq<T>, w2: seq<T>, xs: seq<T>, ys: seq<T>)
    requires Disjoint(xs, ys)
    ensures Without(w1 + xs + w2, ys) == (Without(w1, ys) + xs) + Without(w2, ys)
    ensures Without(w1 + w2, ys) == Without(w1, ys) + Without(w2, ys)
  {
    WithoutAppend(w1 + xs, w2, ys);
    WithoutAppend(w1, xs, ys);
    WithoutNone(xs, ys);
    WithoutAppend(w1, w2, ys);
  }

  /** A run surrounded by `a` and `b` in a duplicate-free sequence is found
      right after `a`, and replacing it keeps `a` and `b`. */
  lemma {:induction false} RunIn<T>(a: seq<T>, f: seq<T>, b: seq<T>, g: seq<T>)
    requires f != [] && NoDup(a + f + b)
    ensures Run(a + f + b, f)
    ensures Replace(a + f + b, f, g) == a + g + b
  {
    var s := a + f + b;
    NoDupAppend(a + f, b);
    NoDupAppend(a, f);
    assert s[..|a|] == a;
    assert f[0] in f;
    IndexOfAt(s, f[0], |a|);
    assert s[|a|..|a| + |f|] == f;
    assert s[|a| + |f|..] == b;
  }

  /** A run splits its sequence into what comes before it, the run and
      what comes after it. */
  lemma {:induction false} RunParts<T>(s: seq<T>, f: seq<T>)
    requires Run(s, f)
    ensures var k := IndexOf(s, f[0]); s == s[..k] + f + s[k + |f|..]
  {
    var k := IndexOf(s, f[0]);
    assert s == s[..k] + s[k..k + |f|] + s[k + |f|..];
  }

  /** In a duplicate-free concatenation the first element of the second
      part is not in the first part. */
  lemma {:induction false} NoDupHead<T>(u: seq<T>, v: seq<T>)
    requires NoDup(u + v) && v != []
    ensures v[0] !in u
  {
    NoDupAppend(u, v);
    assert v[0] in v;
  }

  /** Regrouping a run that sits inside another run. */
  lemma {:induction false} Regroup<T>(a: seq<T>, x: seq<T>, g: seq<T>, y: seq<T>, b: seq<T>)
    ensures a + (x + g + y) + b == (a + x) + g + (y + b)
    ensures (a + x) + (y + b) == a + (x + y) + b
  {
  }

  /** Removing a run from the middle of a duplicate-free sequence. */
  lemma {:induction false} WithoutRun<T>(a: seq<T>, f: seq<T>, b: seq<T>)
    requires NoDup(a + f + b)
    ensures Without(a + f + b, f) == a + b
  {
    NoDupAppend(a + f, b);
    NoDupAppend(a, f);
    assert Without(a + f, f) == a by {
      WithoutAppend(a, f, f);
      WithoutNone(a, f);
      WithoutAll(f, f);
    }
    assert Without(b, f) == b by {
      assert Disjoint(f, b);
      DisjointSym(f, b);
      WithoutNone(b, f);
    }
    WithoutAppend(a + f, b, f);
  }
}

module Util {
  datatype Option<T> = None | Some(value: T)

  /** The last element of a join with a non-empty second part is that
      part's last. */
  lemma LastOfJoin<T>(a: seq<T>, b: seq<T>)
    requires b != []
    ensures (a + b)[|a + b| - 1] == b[|b| - 1]
  {
  }
}
