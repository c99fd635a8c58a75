/**
 * A stable sort by descending integer key, written as insertion from the
 * back. Every stable sort driven by a consistent comparator produces this
 * same sequence, so it specifies `Array.prototype.sort` (stable since
 * ECMAScript 2019) for the comparators of this system.
 */
module Sorting {

  predicate SortedDesc<T>(s: seq<T>, key: T -> int)
  {
    forall i, j :: 0 <= i < j < |s| ==> key(s[i]) >= key(s[j])
  }

  /** The elements of `s` whose key is `k`, in their order in `s`. */
  function WithKey<T>(s: seq<T>, key: T -> int, k: int): seq<T>
  {
    if s == [] then []
    else WithKey(s[..|s| - 1], key, k) + (if key(s[|s| - 1]) == k then [s[|s| - 1]] else [])
  }

  /** Insert `x` into `s` from the back: `x` passes only elements whose key is strictly smaller. */
  function Insert<T>(s: seq<T>, x: T, key: T -> int): seq<T>
  {
    if s == [] || key(x) <= key(s[|s| - 1]) then s + [x]
    else Insert(s[..|s| - 1], x, key) + [s[|s| - 1]]
  }

  function SortDesc<T>(s: seq<T>, key: T -> int): seq<T>
  {
    if s == [] then [] else Insert(SortDesc(s[..|s| - 1], key), s[|s| - 1], key)
  }

  lemma {:induction false} InsertPermutes<T>(s: seq<T>, x: T, key: T -> int)
    ensures multiset(Insert(s, x, key)) == multiset(s) + multiset{x}
  {
    if s != [] && key(x) > key(s[|s| - 1]) {
      InsertPermutes(s[..|s| - 1], x, key);
      assert s == s[..|s| - 1] + [s[|s| - 1]];
    }
  }

  lemma {:induction false} InsertSorted<T>(s: seq<T>, x: T, key: T -> int)
    requires SortedDesc(s, key)
    ensures SortedDesc(Insert(s, x, key), key)
  {
    if s != [] && key(x) > key(s[|s| - 1]) {
      var p := s[..|s| - 1];
      InsertSorted(p, x, key);
      InsertPermutes(p, x, key);
      var r := Insert(p, x, key);
      forall i | 0 <= i < |r| ensures key(r[i]) >= key(s[|s| - 1]) {
        assert r[i] in multiset(r);
        if r[i] != x {
          assert r[i] in multiset(p);
          var k :| 0 <= k < |p| && p[k] == r[i];
          assert s[k] == p[k];
        }
      }
    }
  }

  lemma {:induction false} InsertKeepsKeyOrder<T>(s: seq<T>, x: T, key: T -> int, k: int)
    ensures WithKey(Insert(s, x, key), key, k) == WithKey(s, key, k) + (if key(x) == k then [x] else [])
  {
    if s == [] || key(x) <= key(s[|s| - 1]) {
      assert (s + [x])[..|s|] == s;
    } else {
      var p, last := s[..|s| - 1], s[|s| - 1];
      InsertKeepsKeyOrder(p, x, key, k);
      var r := Insert(p, x, key);
      assert (r + [last])[..|r|] == r;
      assert s == p + [last];
      if key(last) == k {
        // `x` only passed `last` because their keys differ
        assert key(x) != k;
      }
    }
  }

  /** The result is ordered by descending key. */
  lemma {:induction false} SortDescSorted<T>(s: seq<T>, key: T -> int)
    ensures SortedDesc(SortDesc(s, key), key)
  {
    if s != [] {
      SortDescSorted(s[..|s| - 1], key);
      InsertSorted(SortDesc(s[..|s| - 1], key), s[|s| - 1], key);
    }
  }

  /** The result is a permutation of the input. */
  lemma {:induction false} SortDescPermutes<T>(s: seq<T>, key: T -> int)
    ensures multiset(SortDesc(s, key)) == multiset(s)
  {
    if s != [] {
      SortDescPermutes(s[..|s| - 1], key);
      InsertPermutes(SortDesc(s[..|s| - 1], key), s[|s| - 1], key);
      assert s == s[..|s| - 1] + [s[|s| - 1]];
    }
  }

  /** Stability: elements with equal keys keep their relative order. */
  lemma {:induction false} SortDescStable<T>(s: seq<T>, key: T -> int, k: int)
    ensures WithKey(SortDesc(s, key), key, k) == WithKey(s, key, k)
  {
    if s != [] {
      SortDescStable(s[..|s| - 1], key, k);
      InsertKeepsKeyOrder(SortDesc(s[..|s| - 1], key), s[|s| - 1], key, k);
    }
  }

  lemma SortDescLength<T>(s: seq<T>, key: T -> int)
    ensures |SortDesc(s, key)| == |s|
  {
    SortDescPermutes(s, key);
    assert |multiset(SortDesc(s, key))| == |multiset(s)|;
  }
}
