/** Sequence helpers: duplicate-free lists, occurrence counts and repetition. */
module Seqs {

  predicate NoDup<T(==)>(s: seq<T>) {
    forall i, j :: 0 <= i < j < |s| ==> s[i] != s[j]
  }

  /**
   * The distinct elements of `s` in order of first occurrence. This is the
   * order a Python `dict` keeps its keys in.
   */
  function Dedup<T(==)>(s: seq<T>): (r: seq<T>)
    ensures |r| <= |s|
  {
    if s == [] then []
    else
      var d := Dedup(s[..|s| - 1]);
      if s[|s| - 1] in d then d else d + [s[|s| - 1]]
  }

  /** Dedup keeps every element once and adds none. */
  lemma {:induction false} DedupSpec<T>(s: seq<T>)
    ensures NoDup(Dedup(s))
    ensures forall x :: x in Dedup(s) <==> x in s
  {
    if s != [] {
      var init := s[..|s| - 1];
      DedupSpec(init);
      assert s == init + [s[|s| - 1]];
    }
  }

  /** Removing duplicates from a duplicate-free list changes nothing. */
  lemma {:induction false} DedupOfNoDup<T>(s: seq<T>)
    requires NoDup(s)
    ensures Dedup(s) == s
  {
    if s != [] {
      DedupOfNoDup(s[..|s| - 1]);
    }
  }

  /** Number of occurrences of `x` in `s`. */
  function Count<T(==)>(s: seq<T>, x: T): (n: nat)
    ensures n <= |s|
    ensures n > 0 <==> x in s
  {
    if s == [] then 0 else Count(s[..|s| - 1], x) + (if s[|s| - 1] == x then 1 else 0)
  }

  lemma {:induction false} CountAppend<T>(a: seq<T>, b: seq<T>, x: T)
    ensures Count(a + b, x) == Count(a, x) + Count(b, x)
    decreases |b|
  {
    if b == [] {
      assert a + b == a;
    } else {
      assert (a + b)[..|a + b| - 1] == a + b[..|b| - 1];
      CountAppend(a, b[..|b| - 1], x);
    }
  }

  /** Counting one more element of `s`. */
  lemma CountSnoc<T>(s: seq<T>, j: nat, x: T)
    requires j < |s|
    ensures Count(s[..j + 1], x) == Count(s[..j], x) + if s[j] == x then 1 else 0
  {
    assert s[..j + 1][..j] == s[..j];
  }

  /** In a duplicate-free list every element occurs once. */
  lemma {:induction false} CountNoDup<T>(s: seq<T>, x: T)
    requires NoDup(s)
    ensures Count(s, x) == if x in s then 1 else 0
  {
    if s != [] {
      var init := s[..|s| - 1];
      assert NoDup(init);
      CountNoDup(init, x);
    }
  }

  lemma AppendAssoc<T>(a: seq<T>, b: seq<T>, c: seq<T>)
    ensures a + b + c == a + (b + c)
  {
  }

  /** A non-empty `b` is its front followed by its last element. */
  lemma SnocSplit<T>(a: seq<T>, b: seq<T>)
    requires b != []
    ensures b[..|b| - 1] + [b[|b| - 1]] == b
    ensures a + b == (a + b[..|b| - 1]) + [b[|b| - 1]]
  {
  }

  /** `n` copies of `x`. */
  function Repeat<T>(x: T, n: nat): (r: seq<T>)
    ensures |r| == n
    ensures forall i :: 0 <= i < n ==> r[i] == x
  {
    if n == 0 then [] else Repeat(x, n - 1) + [x]
  }

  lemma RepeatSnoc<T>(x: T, n: nat)
    ensures Repeat(x, n + 1) == Repeat(x, n) + [x]
  {
  }
}
