/**
 * Python's `list.sort(key=..., reverse=True)`: a stable sort into
 * non-increasing key order. Stability, which Python guarantees, means that
 * elements with equal keys keep their relative input order; together with
 * sortedness that fixes the result uniquely (SortDescIsTheStableSort), so the
 * insertion sort below gives exactly the result Python's Timsort gives.
 */
module Ranking {

  predicate SortedDesc<T>(s: seq<T>, key: T -> int) {
    forall i, j :: 0 <= i < j < |s| ==> key(s[i]) >= key(s[j])
  }

  /** The elements of `s` whose key is `k`, in their order in `s`. */
  function WithKey<T>(s: seq<T>, key: T -> int, k: int): seq<T> {
    if s == [] then [] else (if key(s[0]) == k then [s[0]] else []) + WithKey(s[1..], key, k)
  }

  /** Inserts `x` in front of the first element whose key is not above `x`'s. */
  function Insert<T>(x: T, s: seq<T>, key: T -> int): seq<T> {
    if s == [] then [x]
    else if key(s[0]) <= key(x) then [x] + s
    else [s[0]] + Insert(x, s[1..], key)
  }

  /** Stable descending sort. */
  function SortDesc<T>(s: seq<T>, key: T -> int): (r: seq<T>)
    ensures SortedDesc(r, key)
    ensures multiset(r) == multiset(s)
    ensures |r| == |s|
  {
    if s == [] then []
    else
      var rest := SortDesc(s[1..], key);
      SortStep(s, rest, key);
      Insert(s[0], rest, key)
  }

  /** Inserting the head into the sorted tail sorts the whole sequence. */
  lemma SortStep<T>(s: seq<T>, rest: seq<T>, key: T -> int)
    requires s != [] && SortedDesc(rest, key) && multiset(rest) == multiset(s[1..])
    ensures SortedDesc(Insert(s[0], rest, key), key)
    ensures multiset(Insert(s[0], rest, key)) == multiset(s)
    ensures |Insert(s[0], rest, key)| == |s|
  {
    InsertSorted(s[0], rest, key);
    assert s == [s[0]] + s[1..];
    assert |multiset(Insert(s[0], rest, key))| == |multiset(s)|;
  }

  lemma {:induction false} InsertSorted<T>(x: T, s: seq<T>, key: T -> int)
    requires SortedDesc(s, key)
    ensures SortedDesc(Insert(x, s, key), key)
    ensures multiset(Insert(x, s, key)) == multiset(s) + multiset{x}
  {
    InsertMultiset(x, s, key);
    if s != [] && key(s[0]) > key(x) {
      var t := s[1..];
      InsertSorted(x, t, key);
      var r := Insert(x, t, key);
      InsertMembers(x, t, key);
      forall j | 0 <= j < |r|
        ensures key(s[0]) >= key(r[j])
      {
        if r[j] != x {
          HeadIsMax(s, r[j], key);
        }
      }
      var r' := [s[0]] + r;
      assert Insert(x, s, key) == r';
      forall i, j | 0 <= i < j < |r'|
        ensures key(r'[i]) >= key(r'[j])
      {
        if i > 0 {
          assert r'[i] == r[i - 1] && r'[j] == r[j - 1];
        } else {
          assert r'[j] == r[j - 1];
        }
      }
    }
  }

  lemma HeadIsMax<T>(s: seq<T>, y: T, key: T -> int)
    requires SortedDesc(s, key) && s != [] && y in s[1..]
    ensures key(s[0]) >= key(y)
  {
    var i :| 0 <= i < |s[1..]| && s[1..][i] == y;
    assert s[i + 1] == y;
  }

  lemma {:induction false} InsertMultiset<T>(x: T, s: seq<T>, key: T -> int)
    ensures multiset(Insert(x, s, key)) == multiset(s) + multiset{x}
  {
    if s != [] {
      assert s == [s[0]] + s[1..];
      if key(s[0]) > key(x) {
        InsertMultiset(x, s[1..], key);
      }
    }
  }

  lemma {:induction false} InsertMembers<T>(x: T, s: seq<T>, key: T -> int)
    ensures forall y :: y in Insert(x, s, key) ==> y == x || y in s
  {
    if s != [] && key(s[0]) > key(x) {
      InsertMembers(x, s[1..], key);
    }
  }

  lemma {:induction false} WithKeyInsert<T>(x: T, s: seq<T>, key: T -> int, k: int)
    ensures WithKey(Insert(x, s, key), key, k) == (if key(x) == k then [x] else []) + WithKey(s, key, k)
  {
    if s == [] || key(s[0]) <= key(x) {
      assert Insert(x, s, key) == [x] + s;
      WithKeyCons(x, s, key, k);
    } else {
      var t := Insert(x, s[1..], key);
      var w := WithKey(s[1..], key, k);
      var a: seq<T> := if key(x) == k then [x] else [];
      var b: seq<T> := if key(s[0]) == k then [s[0]] else [];
      assert Insert(x, s, key) == [s[0]] + t;
      WithKeyCons(s[0], t, key, k);
      WithKeyInsert(x, s[1..], key, k);
      assert [s[0]] + s[1..] == s;
      WithKeyCons(s[0], s[1..], key, k);
      if a == [] {
        assert b + (a + w) == a + (b + w);
      } else {
        assert b == [];
        assert b + (a + w) == a + (b + w);
      }
    }
  }

  /** The run of key `k` in `[y] + t`. */
  lemma WithKeyCons<T>(y: T, t: seq<T>, key: T -> int, k: int)
    ensures WithKey([y] + t, key, k) == (if key(y) == k then [y] else []) + WithKey(t, key, k)
  {
    assert ([y] + t)[1..] == t;
  }

  /** Sorting keeps every run of equal keys in input order: the sort is stable. */
  lemma {:induction false} SortDescStable<T>(s: seq<T>, key: T -> int, k: int)
    ensures WithKey(SortDesc(s, key), key, k) == WithKey(s, key, k)
  {
    if s != [] {
      SortDescStable(s[1..], key, k);
      WithKeyInsert(s[0], SortDesc(s[1..], key), key, k);
    }
  }

  lemma {:induction false} WithKeyMembers<T>(s: seq<T>, key: T -> int, k: int, x: T)
    requires x in WithKey(s, key, k)
    ensures x in s && key(x) == k
  {
    if s != [] {
      if x != s[0] || key(s[0]) != k {
        WithKeyMembers(s[1..], key, k, x);
      }
    }
  }

  lemma {:induction false} WithKeyNonEmpty<T>(s: seq<T>, key: T -> int, i: int)
    requires 0 <= i < |s|
    ensures WithKey(s, key, key(s[i])) != []
  {
    if i > 0 {
      WithKeyNonEmpty(s[1..], key, i - 1);
    }
  }

  /** Two sorted lists with the same run for every key are equal. */
  lemma {:induction false} SortedRunsDetermine<T>(t: seq<T>, u: seq<T>, key: T -> int)
    requires SortedDesc(t, key) && SortedDesc(u, key)
    requires forall k :: WithKey(t, key, k) == WithKey(u, key, k)
    ensures t == u
    decreases |t|
  {
    if t == [] {
      if u != [] {
        WithKeyNonEmpty(u, key, 0);
        assert false;
      }
    } else if u == [] {
      WithKeyNonEmpty(t, key, 0);
      assert false;
    } else {
      SortedHeadsAgree(t, u, key);
      SameHeadTailRuns(t, u, key);
      SortedRunsDetermine(t[1..], u[1..], key);
    }
  }

  /** Sorted lists with the same runs start with the same element. */
  lemma SortedHeadsAgree<T>(t: seq<T>, u: seq<T>, key: T -> int)
    requires t != [] && u != []
    requires SortedDesc(t, key) && SortedDesc(u, key)
    requires forall k :: WithKey(t, key, k) == WithKey(u, key, k)
    ensures t[0] == u[0]
  {
    var m, m' := key(t[0]), key(u[0]);
    WithKeyNonEmpty(t, key, 0);
    WithKeyNonEmpty(u, key, 0);
    var x := WithKey(u, key, m)[0];
    WithKeyMembers(u, key, m, x);
    var y := WithKey(t, key, m')[0];
    WithKeyMembers(t, key, m', y);
    assert m == m';
    assert t[0] == WithKey(t, key, m)[0] == WithKey(u, key, m)[0] == u[0];
  }

  /** Removing the same first element from two lists with the same runs leaves lists with the same runs. */
  lemma SameHeadTailRuns<T>(t: seq<T>, u: seq<T>, key: T -> int)
    requires t != [] && u != [] && t[0] == u[0]
    requires forall k :: WithKey(t, key, k) == WithKey(u, key, k)
    ensures forall k :: WithKey(t[1..], key, k) == WithKey(u[1..], key, k)
  {
    forall k
      ensures WithKey(t[1..], key, k) == WithKey(u[1..], key, k)
    {
      var h := if key(t[0]) == k then [t[0]] else [];
      assert WithKey(t, key, k) == h + WithKey(t[1..], key, k);
      assert WithKey(u, key, k) == h + WithKey(u[1..], key, k);
      assert WithKey(t[1..], key, k) == WithKey(t, key, k)[|h|..];
      assert WithKey(u[1..], key, k) == WithKey(u, key, k)[|h|..];
    }
  }

  /**
   * Any list that is sorted into non-increasing key order and keeps every
   * run of equal keys in input order is SortDesc(s): a stable sort has
   * exactly one possible result.
   */
  lemma SortDescIsTheStableSort<T>(s: seq<T>, t: seq<T>, key: T -> int)
    requires SortedDesc(t, key)
    requires forall k :: WithKey(t, key, k) == WithKey(s, key, k)
    ensures t == SortDesc(s, key)
  {
    forall k
      ensures WithKey(t, key, k) == WithKey(SortDesc(s, key), key, k)
    {
      SortDescStable(s, key, k);
    }
    SortedRunsDetermine(t, SortDesc(s, key), key);
  }
}
