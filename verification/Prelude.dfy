/** Definitions shared by the component models. */
module Prelude {
  datatype Option<+T> = None | Some(value: T)

  function Min(a: int, b: int): int { if a <= b then a else b }

  function Max(a: int, b: int): int { if a >= b then a else b }

  /** No value occurs twice. */
  ghost predicate Distinct<T(!new)>(s: seq<T>) {
    forall i, j :: 0 <= i < j < |s| ==> s[i] != s[j]
  }

  /** The values occurring in `s`. */
  ghost function Elems<T>(s: seq<T>): set<T> { set x | x in s }

  function RemoveAt<T>(s: seq<T>, i: nat): seq<T>
    requires i < |s|
  {
    s[..i] + s[i + 1..]
  }

  function InsertAt<T>(s: seq<T>, i: nat, x: T): seq<T>
    requires i <= |s|
  {
    s[..i] + [x] + s[i..]
  }

  lemma RemoveAtMultiset<T>(s: seq<T>, i: nat)
    requires i < |s|
    ensures multiset(s) == multiset(RemoveAt(s, i)) + multiset{s[i]}
  {
    assert s == s[..i] + [s[i]] + s[i + 1..];
  }

  lemma RemoveInserted<T>(s: seq<T>, i: nat, x: T)
    requires i <= |s|
    ensures RemoveAt(InsertAt(s, i, x), i) == s && InsertAt(s, i, x)[i] == x
  {
  }

  lemma InsertRemoved<T>(s: seq<T>, i: nat)
    requires i < |s|
    ensures InsertAt(RemoveAt(s, i), i, s[i]) == s
  {
  }

  /** Permutations can be peeled together: the last element of `a` sits somewhere in `b`. */
  lemma PeelPermuted<T>(a: seq<T>, b: seq<T>) returns (i: nat)
    requires multiset(a) == multiset(b) && a != []
    ensures i < |b| && b[i] == a[|a| - 1]
    ensures multiset(a[..|a| - 1]) == multiset(RemoveAt(b, i))
  {
    var x := a[|a| - 1];
    assert a == a[..|a| - 1] + [x];
    assert x in multiset(b);
    i :| 0 <= i < |b| && b[i] == x;
    RemoveAtMultiset(b, i);
    assert multiset(a[..|a| - 1]) == multiset(a) - multiset{x};
    assert multiset(RemoveAt(b, i)) == multiset(b) - multiset{x};
  }

  /** A sequence is at least as long as its set of values. */
  lemma {:induction false} ElemsBound<T>(s: seq<T>)
    ensures |Elems(s)| <= |s|
  {
    if s != [] {
      var init := s[..|s| - 1];
      ElemsBound(init);
      assert s == init + [s[|s| - 1]];
      assert Elems(s) == Elems(init) + {s[|s| - 1]};
    }
  }

  lemma SubsetSize<T>(a: set<T>, b: set<T>)
    requires a <= b
    ensures |a| <= |b|
  {
    assert b == a + (b - a);
  }

  /** Every entry is a position in a sequence of length `n`. */
  ghost predicate InRange(order: seq<nat>, n: nat) { forall k :: 0 <= k < |order| ==> order[k] < n }

  /** The elements at the given positions, in that order. */
  function Picked<T>(s: seq<T>, order: seq<nat>): seq<T>
    requires InRange(order, |s|)
  {
    seq(|order|, k requires 0 <= k < |order| && order[k] < |s| => s[order[k]])
  }

  lemma PickedWithLast<T>(s: seq<T>, order: seq<nat>, k: nat)
    requires InRange(order, |s|) && Distinct(order) && s != [] && k < |order| && order[k] == |s| - 1
    ensures var n, rest := |s| - 1, RemoveAt(order, k);
            && InRange(rest, n) && Distinct(rest)
            && RemoveAt(Picked(s, order), k) == Picked(s[..n], rest)
  {
  }

  lemma PickedWithoutLast<T>(s: seq<T>, order: seq<nat>)
    requires InRange(order, |s|) && s != [] && |s| - 1 !in order
    ensures InRange(order, |s| - 1) && Picked(s, order) == Picked(s[..|s| - 1], order)
  {
    assert forall k :: 0 <= k < |order| ==> order[k] in order;
  }

  lemma PickedNone<T>(s: seq<T>, order: seq<nat>)
    requires InRange(order, |s|)
    ensures s == [] ==> Picked(s, order) == []
  {
    assert order != [] ==> order[0] < |s|;
  }

  lemma OneMore<T>(a: multiset<T>, b: multiset<T>, x: T)
    requires a <= b
    ensures a <= b + multiset{x} && a + multiset{x} <= b + multiset{x}
  {
  }

  /** Distinct positions pick each element at most as often as it occurs. */
  lemma {:induction false} PickedSubset<T>(s: seq<T>, order: seq<nat>)
    requires InRange(order, |s|) && Distinct(order)
    ensures multiset(Picked(s, order)) <= multiset(s)
    decreases |s|
  {
    PickedNone(s, order);
    if s != [] {
      var n := |s| - 1;
      RemoveAtMultiset(s, n);
      assert RemoveAt(s, n) == s[..n];
      var picked := Picked(s, order);
      if n in order {
        var k :| 0 <= k < |order| && order[k] == n;
        PickedWithLast(s, order, k);
        PickedSubset(s[..n], RemoveAt(order, k));
        RemoveAtMultiset(picked, k);
        OneMore(multiset(RemoveAt(picked, k)), multiset(s[..n]), s[n]);
      } else {
        PickedWithoutLast(s, order);
        PickedSubset(s[..n], order);
        OneMore(multiset(picked), multiset(s[..n]), s[n]);
      }
    }
  }

  /** As many distinct positions as there are elements pick a permutation. */
  lemma PickedPermutes<T>(s: seq<T>, order: seq<nat>)
    requires InRange(order, |s|) && Distinct(order) && |order| == |s|
    ensures multiset(Picked(s, order)) == multiset(s)
  {
    PickedSubset(s, order);
    var a, b := multiset(Picked(s, order)), multiset(s);
    assert b == a + (b - a);
    assert |b - a| == 0;
  }

  function Take<T>(s: seq<T>, k: nat): seq<T> { if |s| <= k then s else s[..k] }

  /** `Instant::duration_since`, which saturates at zero. */
  function Since(now: int, then_: int): nat { Max(0, now - then_) }

  /** `a` is `b` with elements left out. */
  ghost predicate Subsequence<T>(a: seq<T>, b: seq<T>) {
    a == [] ||
    (b != [] && (Subsequence(a, b[..|b| - 1]) || (a[|a| - 1] == b[|b| - 1] && Subsequence(a[..|a| - 1], b[..|b| - 1]))))
  }

  lemma {:induction false} SubsequenceMember<T>(a: seq<T>, b: seq<T>, k: nat) returns (j: nat)
    requires Subsequence(a, b) && k < |a|
    ensures j < |b| && b[j] == a[k]
    decreases |b|
  {
    var init := b[..|b| - 1];
    if Subsequence(a, init) {
      j := SubsequenceMember(a, init, k);
    } else if k == |a| - 1 {
      j := |b| - 1;
    } else {
      j := SubsequenceMember(a[..|a| - 1], init, k);
    }
  }

  lemma {:induction false} SubsequenceReflexive<T>(a: seq<T>)
    ensures Subsequence(a, a)
  {
    if a != [] {
      SubsequenceReflexive(a[..|a| - 1]);
    }
  }

  lemma {:induction false} SubsequenceSkips<T>(a: seq<T>, b: seq<T>, c: seq<T>)
    requires Subsequence(a, b)
    ensures Subsequence(a, b + c)
  {
    if c == [] {
      assert b + c == b;
    } else {
      SubsequenceSkips(a, b, c[..|c| - 1]);
      assert (b + c)[..|b + c| - 1] == b + c[..|c| - 1];
    }
  }

  lemma {:induction false} SubsequenceExtends<T>(a: seq<T>, b: seq<T>, c: seq<T>)
    requires Subsequence(a, b)
    ensures Subsequence(a + c, b + c)
  {
    if c == [] {
      assert a + c == a && b + c == b;
    } else {
      SubsequenceExtends(a, b, c[..|c| - 1]);
      assert (a + c)[..|a + c| - 1] == a + c[..|c| - 1] && (b + c)[..|b + c| - 1] == b + c[..|c| - 1];
    }
  }

  lemma {:induction false} SubsequenceBoth<T>(a: seq<T>, b: seq<T>, c: seq<T>, d: seq<T>)
    requires Subsequence(a, b) && Subsequence(c, d)
    ensures Subsequence(a + c, b + d)
    decreases |d|
  {
    if c == [] {
      assert a + c == a;
      SubsequenceSkips(a, b, d);
    } else {
      var init := d[..|d| - 1];
      assert (b + d)[..|b + d| - 1] == b + init;
      if Subsequence(c, init) {
        SubsequenceBoth(a, b, c, init);
      } else {
        SubsequenceBoth(a, b, c[..|c| - 1], init);
        assert (a + c)[..|a + c| - 1] == a + c[..|c| - 1];
      }
    }
  }

  lemma {:induction false} SubsequenceLength<T>(a: seq<T>, b: seq<T>)
    requires Subsequence(a, b)
    ensures |a| <= |b| && (|a| == |b| ==> a == b)
    decreases |b|
  {
    if a != [] {
      var init := b[..|b| - 1];
      if Subsequence(a, init) {
        SubsequenceLength(a, init);
      } else {
        SubsequenceLength(a[..|a| - 1], init);
        assert a == a[..|a| - 1] + [a[|a| - 1]] && b == init + [b[|b| - 1]];
      }
    }
  }

  lemma SubsequencePrefix<T>(a: seq<T>, b: seq<T>, c: seq<T>)
    requires Subsequence(a, b) && b <= c
    ensures Subsequence(a, c)
  {
    SubsequenceSkips(a, b, c[|b|..]);
    assert b + c[|b|..] == c;
  }
}
