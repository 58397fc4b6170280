/** Stable sorting, as Python's list.sort / sorted and Qt's sortChildren
    (std::stable_sort) do it: elements that compare equal keep their input
    order, also when sorting in reverse. `before(a, b)` says that a must come
    strictly before b. */
module Sorting {

  /** `before` is a strict order: irreflexive and transitive. */
  ghost predicate StrictOrder<T(!new)>(before: (T, T) -> bool)
  {
    && (forall a :: !before(a, a))
    && (forall a, b, c :: before(a, b) && before(b, c) ==> before(a, c))
  }

  /** No element is placed after one it must precede. */
  ghost predicate SortedBy<T>(s: seq<T>, before: (T, T) -> bool)
  {
    forall i, j :: 0 <= i < j < |s| ==> !before(s[j], s[i])
  }

  /** Puts x in front of the first element it must precede, so after every
      element that is not strictly greater. */
  function Insert<T>(s: seq<T>, x: T, before: (T, T) -> bool): (r: seq<T>)
    ensures multiset(r) == multiset(s) + multiset{x}
    ensures |r| == |s| + 1
  {
    if |s| == 0 then [x]
    else if before(x, s[0]) then [x] + s
    else
      assert s == [s[0]] + s[1..];
      [s[0]] + Insert(s[1..], x, before)
  }

  /** Insertion sort that takes the elements from the back, so that equal
      elements keep their order. */
  function SortBy<T>(s: seq<T>, before: (T, T) -> bool): (r: seq<T>)
    ensures multiset(r) == multiset(s)
    ensures |r| == |s|
  {
    if |s| == 0 then []
    else
      assert s == s[..|s| - 1] + [s[|s| - 1]];
      Insert(SortBy(s[..|s| - 1], before), s[|s| - 1], before)
  }

  lemma {:induction false} InsertSorted<T(!new)>(s: seq<T>, x: T, before: (T, T) -> bool)
    requires StrictOrder(before)
    requires SortedBy(s, before)
    ensures SortedBy(Insert(s, x, before), before)
  {
    if |s| == 0 {
    } else if before(x, s[0]) {
      var r := [x] + s;
      forall i, j | 0 <= i < j < |r|
        ensures !before(r[j], r[i])
      {
        if i == 0 && j > 1 {
          assert !before(s[j - 1], s[0]);
        }
      }
    } else {
      var t := s[1..];
      InsertSorted(t, x, before);
      var it := Insert(t, x, before);
      var r := [s[0]] + it;
      assert multiset(it) == multiset(t) + multiset{x};
      forall j | 0 <= j < |it|
        ensures !before(it[j], s[0])
      {
        assert it[j] in multiset(it);
        if it[j] != x {
          assert it[j] in multiset(t);
          var m :| 0 <= m < |t| && t[m] == it[j];
          assert s[m + 1] == t[m];
        }
      }
      forall i, j | 0 <= i < j < |r|
        ensures !before(r[j], r[i])
      {
        if i == 0 {
          assert r[j] == it[j - 1];
        } else {
          assert r[i] == it[i - 1] && r[j] == it[j - 1];
        }
      }
    }
  }

  /** SortBy returns its input reordered so that no element comes after one
      it must precede. */
  lemma {:induction false} SortBySorted<T(!new)>(s: seq<T>, before: (T, T) -> bool)
    requires StrictOrder(before)
    ensures SortedBy(SortBy(s, before), before)
    ensures multiset(SortBy(s, before)) == multiset(s)
  {
    if |s| > 0 {
      SortBySorted(s[..|s| - 1], before);
      InsertSorted(SortBy(s[..|s| - 1], before), s[|s| - 1], before);
    }
  }
}
