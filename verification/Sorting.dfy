/** A stable sort by comparator, standing for `slice::sort_by`. */
module Sorting {
  function Insert<T>(s: seq<T>, x: T, before: (T, T) -> bool): seq<T> {
    if s == [] then [x]
    else if before(x, s[|s| - 1]) then Insert(s[..|s| - 1], x, before) + [s[|s| - 1]]
    else s + [x]
  }

  /** Equal elements keep their order: each goes behind everything it does not precede. */
  function SortBy<T>(s: seq<T>, before: (T, T) -> bool): seq<T> {
    if s == [] then [] else Insert(SortBy(s[..|s| - 1], before), s[|s| - 1], before)
  }

  ghost predicate Sorted<T(!new)>(s: seq<T>, before: (T, T) -> bool) {
    forall i, j :: 0 <= i < j < |s| ==> !before(s[j], s[i])
  }

  /** "Does not come after" is a total preorder. */
  ghost predicate Ordering<T(!new)>(before: (T, T) -> bool) {
    && (forall x, y :: before(x, y) ==> !before(y, x))
    && (forall x, y, z :: !before(y, x) && !before(z, y) ==> !before(z, x))
  }

  lemma {:induction false} InsertPermutes<T>(s: seq<T>, x: T, before: (T, T) -> bool)
    ensures multiset(Insert(s, x, before)) == multiset(s) + multiset{x}
  {
    if s != [] {
      InsertPermutes(s[..|s| - 1], x, before);
      assert s == s[..|s| - 1] + [s[|s| - 1]];
    }
  }

  lemma {:induction false} SortPermutes<T>(s: seq<T>, before: (T, T) -> bool)
    ensures multiset(SortBy(s, before)) == multiset(s)
  {
    if s != [] {
      var init, x := s[..|s| - 1], s[|s| - 1];
      SortPermutes(init, before);
      InsertPermutes(SortBy(init, before), x, before);
      assert s == init + [x];
      assert multiset(s) == multiset(init) + multiset{x};
    }
  }

  lemma {:induction false} InsertSorts<T(!new)>(s: seq<T>, x: T, before: (T, T) -> bool)
    requires Ordering(before) && Sorted(s, before)
    ensures Sorted(Insert(s, x, before), before)
  {
    if s != [] && before(x, s[|s| - 1]) {
      var init, last := s[..|s| - 1], s[|s| - 1];
      InsertSorts(init, x, before);
      InsertPermutes(init, x, before);
      var r := Insert(init, x, before);
      forall y | y in r
        ensures !before(last, y)
      {
        assert y in multiset(init) + multiset{x};
        assert y == x || y in init;
      }
      assert forall i :: 0 <= i < |r| ==> r[i] in r;
    } else if s != [] {
      var last := s[|s| - 1];
      assert forall i :: 0 <= i < |s| ==> !before(last, s[i]);
    }
  }

  lemma {:induction false} SortSorts<T(!new)>(s: seq<T>, before: (T, T) -> bool)
    requires Ordering(before)
    ensures Sorted(SortBy(s, before), before)
  {
    if s != [] {
      SortSorts(s[..|s| - 1], before);
      InsertSorts(SortBy(s[..|s| - 1], before), s[|s| - 1], before);
    }
  }

  /** A permutation has the same members. */
  lemma SameMembers<T>(s: seq<T>, t: seq<T>, x: T)
    requires multiset(s) == multiset(t)
    ensures x in s <==> x in t
  {
    assert x in s <==> x in multiset(s);
    assert x in t <==> x in multiset(t);
  }
}
