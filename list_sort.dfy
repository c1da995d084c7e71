/**
 * `List.sort(Comparator)`: Java sorts lists stably, so for a comparator that
 * is a total preorder its result is the one stable sorted permutation. It is
 * computed here by insertion; any stable sort returns the same list.
 */
module ListSort {

  /** Of any two elements, one is not ordered after the other. */
  ghost predicate IsTotal<T(!new)>(cmp: (T, T) -> int) {
    forall a, b :: cmp(a, b) <= 0 || cmp(b, a) <= 0
  }

  /** `cmp` is a consistent comparator: total, and transitive in its "not after" relation. */
  ghost predicate IsTotalPreorder<T(!new)>(cmp: (T, T) -> int) {
    && IsTotal(cmp)
    && (forall a, b, c :: cmp(a, b) <= 0 && cmp(b, c) <= 0 ==> cmp(a, c) <= 0)
  }

  /** No element is ordered after a later one. */
  ghost predicate SortedBy<T>(s: seq<T>, cmp: (T, T) -> int) {
    forall i, j :: 0 <= i < j < |s| ==> cmp(s[i], s[j]) <= 0
  }

  /**
   * Places `x` before the first element of `s` it is not ordered after, so
   * that `x` stays ahead of the elements it compares equal to.
   */
  function Insert<T>(x: T, s: seq<T>, cmp: (T, T) -> int): (r: seq<T>)
    ensures multiset(r) == multiset(s) + multiset{x}
  {
    if s == [] || cmp(x, s[0]) <= 0 then [x] + s
    else
      assert s == [s[0]] + s[1..];
      [s[0]] + Insert(x, s[1..], cmp)
  }

  /** Stable sort: each element is inserted ahead of the sorted rest. */
  function Sort<T>(s: seq<T>, cmp: (T, T) -> int): (r: seq<T>)
    ensures multiset(r) == multiset(s)
  {
    if s == [] then []
    else
      assert s == [s[0]] + s[1..];
      Insert(s[0], Sort(s[1..], cmp), cmp)
  }

  /** An element not after the head of a sorted list is not after any of its elements. */
  lemma BelowHead<T(!new)>(x: T, s: seq<T>, cmp: (T, T) -> int)
    requires IsTotalPreorder(cmp) && SortedBy(s, cmp)
    requires s != [] && cmp(x, s[0]) <= 0
    ensures forall j :: 0 <= j < |s| ==> cmp(x, s[j]) <= 0
  {
  }

  /** Inserting an element not after any element of a sorted list puts it first, and keeps it sorted. */
  lemma InsertFirstSorted<T>(x: T, s: seq<T>, cmp: (T, T) -> int)
    requires SortedBy(s, cmp) && s != [] && cmp(x, s[0]) <= 0
    requires forall j :: 0 <= j < |s| ==> cmp(x, s[j]) <= 0
    ensures SortedBy(Insert(x, s, cmp), cmp)
  {
    var r := [x] + s;
    assert Insert(x, s, cmp) == r;
    forall i, j | 0 <= i < j < |r| ensures cmp(r[i], r[j]) <= 0 {
      assert r[j] == s[j - 1];
      if i > 0 {
        assert r[i] == s[i - 1];
      }
    }
  }

  /** Inserting after the head keeps the head first, so the list stays sorted when the rest does. */
  lemma InsertAfterHeadSorted<T(!new)>(x: T, s: seq<T>, cmp: (T, T) -> int)
    requires IsTotal(cmp) && SortedBy(s, cmp) && s != [] && cmp(x, s[0]) > 0
    requires SortedBy(Insert(x, s[1..], cmp), cmp)
    ensures SortedBy(Insert(x, s, cmp), cmp)
  {
    var rest := Insert(x, s[1..], cmp);
    assert cmp(s[0], x) <= 0;
    forall j | 0 <= j < |rest| ensures cmp(s[0], rest[j]) <= 0 {
      var y := rest[j];
      assert y in multiset(rest);
      if y != x {
        assert y in multiset(s[1..]);
        var k :| 0 <= k < |s[1..]| && s[1..][k] == y;
        assert s[k + 1] == y;
      }
    }
    var r := [s[0]] + rest;
    assert Insert(x, s, cmp) == r;
    forall i, j | 0 <= i < j < |r| ensures cmp(r[i], r[j]) <= 0 {
      assert r[j] == rest[j - 1];
      if i > 0 {
        assert r[i] == rest[i - 1];
      }
    }
  }

  lemma {:induction false} InsertSorted<T(!new)>(x: T, s: seq<T>, cmp: (T, T) -> int)
    requires IsTotalPreorder(cmp) && SortedBy(s, cmp)
    ensures SortedBy(Insert(x, s, cmp), cmp)
  {
    if s == [] {
      assert Insert(x, s, cmp) == [x];
    } else if cmp(x, s[0]) <= 0 {
      BelowHead(x, s, cmp);
      InsertFirstSorted(x, s, cmp);
    } else {
      InsertSorted(x, s[1..], cmp);
      InsertAfterHeadSorted(x, s, cmp);
    }
  }

  /** The sorted list is ordered by `cmp` (and a permutation of the input, by `Sort`'s contract). */
  lemma {:induction false} SortSorted<T(!new)>(s: seq<T>, cmp: (T, T) -> int)
    requires IsTotalPreorder(cmp)
    ensures SortedBy(Sort(s, cmp), cmp)
  {
    if s != [] {
      SortSorted(s[1..], cmp);
      InsertSorted(s[0], Sort(s[1..], cmp), cmp);
    }
  }
}
