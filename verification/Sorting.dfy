/** Stable sorting by a key. */
module Sorting {

  /** Puts `x` behind everything whose key is not larger. */
  function Insert<T>(s: seq<T>, x: T, key: T -> int): seq<T> {
    if s == [] then [x]
    else
      var last := s[|s| - 1];
      if key(last) <= key(x) then s + [x] else Insert(s[..|s| - 1], x, key) + [last]
  }

  function SortBy<T>(s: seq<T>, key: T -> int): seq<T> {
    if s == [] then [] else Insert(SortBy(s[..|s| - 1], key), s[|s| - 1], key)
  }

  ghost predicate SortedBy<T>(s: seq<T>, key: T -> int) {
    forall i, j :: 0 <= i < j < |s| ==> key(s[i]) <= key(s[j])
  }

  /** The elements with a given key. */
  function WithKey<T>(s: seq<T>, key: T -> int, k: int): seq<T> {
    if s == [] then []
    else WithKey(s[..|s| - 1], key, k) + if key(s[|s| - 1]) == k then [s[|s| - 1]] else []
  }

  lemma {:induction false} InsertPermutes<T>(s: seq<T>, x: T, key: T -> int)
    ensures multiset(Insert(s, x, key)) == multiset(s) + multiset{x} && |Insert(s, x, key)| == |s| + 1
    decreases |s|
  {
    if s != [] {
      var front, last := s[..|s| - 1], s[|s| - 1];
      assert s == front + [last];
      InsertPermutes(front, x, key);
    }
  }

  lemma {:induction false} InsertSorts<T>(s: seq<T>, x: T, key: T -> int)
    requires SortedBy(s, key)
    ensures SortedBy(Insert(s, x, key), key)
    decreases |s|
  {
    if s != [] {
      var front, last := s[..|s| - 1], s[|s| - 1];
      if key(last) <= key(x) {
        SortedSnoc(s, x, key);
      } else {
        InsertSorts(front, x, key);
        InsertBound(front, x, key, key(last));
        SortedSnoc(Insert(front, x, key), last, key);
      }
    }
  }

  lemma SortedSnoc<T>(s: seq<T>, x: T, key: T -> int)
    requires SortedBy(s, key) && forall i :: 0 <= i < |s| ==> key(s[i]) <= key(x)
    ensures SortedBy(s + [x], key)
  {
  }

  lemma {:induction false} InsertBound<T>(s: seq<T>, x: T, key: T -> int, bound: int)
    requires key(x) <= bound && forall i :: 0 <= i < |s| ==> key(s[i]) <= bound
    ensures forall i :: 0 <= i < |Insert(s, x, key)| ==> key(Insert(s, x, key)[i]) <= bound
    decreases |s|
  {
    if s != [] && key(s[|s| - 1]) > key(x) {
      InsertBound(s[..|s| - 1], x, key, bound);
    }
  }

  /** Sorting gives an ordered permutation. */
  lemma {:induction false} SortSorts<T>(s: seq<T>, key: T -> int)
    ensures SortedBy(SortBy(s, key), key) && multiset(SortBy(s, key)) == multiset(s) && |SortBy(s, key)| == |s|
    decreases |s|
  {
    if s != [] {
      var front, last := s[..|s| - 1], s[|s| - 1];
      SortSorts(front, key);
      InsertSorts(SortBy(front, key), last, key);
      InsertPermutes(SortBy(front, key), last, key);
      assert s == front + [last];
    }
  }

  lemma {:induction false} WithKeyAppend<T>(s: seq<T>, x: T, key: T -> int, k: int)
    ensures WithKey(s + [x], key, k) == WithKey(s, key, k) + if key(x) == k then [x] else []
  {
    assert (s + [x])[..|s|] == s;
  }

  lemma {:induction false} InsertIsStable<T>(s: seq<T>, x: T, key: T -> int, k: int)
    requires SortedBy(s, key)
    ensures WithKey(Insert(s, x, key), key, k) == WithKey(s + [x], key, k)
    decreases |s|
  {
    WithKeyAppend(s, x, key, k);
    if s != [] {
      var front, last := s[..|s| - 1], s[|s| - 1];
      if key(last) > key(x) {
        InsertIsStable(front, x, key, k);
        WithKeyAppend(front, x, key, k);
        WithKeyAppend(Insert(front, x, key), last, key, k);
        Swap(WithKey(front, key, k), if key(x) == k then [x] else [], if key(last) == k then [last] else []);
      }
    }
  }

  lemma Swap<T>(a: seq<T>, b: seq<T>, c: seq<T>)
    requires b == [] || c == []
    ensures a + b + c == a + c + b
  {
  }

  /** Elements with equal keys keep their order. */
  lemma {:induction false} SortIsStable<T>(s: seq<T>, key: T -> int, k: int)
    ensures WithKey(SortBy(s, key), key, k) == WithKey(s, key, k)
    decreases |s|
  {
    if s != [] {
      var front, last := s[..|s| - 1], s[|s| - 1];
      SortIsStable(front, key, k);
      SortSorts(front, key);
      InsertIsStable(SortBy(front, key), last, key, k);
      WithKeyAppend(SortBy(front, key), last, key, k);
    }
  }

  /** What is in order stays as it is. */
  lemma {:induction false} SortedIsFixed<T>(s: seq<T>, key: T -> int)
    requires SortedBy(s, key)
    ensures SortBy(s, key) == s
    decreases |s|
  {
    if s != [] {
      var front, last := s[..|s| - 1], s[|s| - 1];
      SortedIsFixed(front, key);
      assert s == front + [last];
    }
  }
}
