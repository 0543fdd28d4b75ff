/**
 * The Python string operations the modelled code relies on, restricted to
 * ASCII: `str.lower`, the `in` substring test, `startswith`, `endswith`,
 * `strip`, `split` on one character and `join`.
 */
module Text {

  /** ASCII `str.lower` on one character. */
  function LowerChar(c: char): char {
    if 'A' <= c <= 'Z' then (c as int + 32) as char else c
  }

  /** ASCII `str.lower`. */
  function Lower(s: string): (r: string)
    ensures |r| == |s|
  {
    if s == [] then [] else [LowerChar(s[0])] + Lower(s[1..])
  }

  /** `lower` maps every character on its own. */
  lemma {:induction false} LowerAt(s: string)
    ensures forall i :: 0 <= i < |s| ==> Lower(s)[i] == LowerChar(s[i])
  {
    if s != [] {
      LowerAt(s[1..]);
    }
  }

  /** A string `lower` leaves unchanged holds no upper-case ASCII letter. */
  predicate IsLowerCase(s: string) {
    forall i :: 0 <= i < |s| ==> !('A' <= s[i] <= 'Z')
  }

  lemma LowerIsLowerCase(s: string)
    ensures IsLowerCase(Lower(s))
    ensures Lower(Lower(s)) == Lower(s)
  {
    LowerAt(s);
    LowerOfLowerCase(Lower(s));
  }

  lemma {:induction false} LowerOfLowerCase(s: string)
    requires IsLowerCase(s)
    ensures Lower(s) == s
  {
    if s != [] {
      assert IsLowerCase(s[1..]);
      LowerOfLowerCase(s[1..]);
    }
  }

  lemma LowerSlice(s: string, i: int, j: int)
    requires 0 <= i <= j <= |s|
    ensures Lower(s)[i..j] == Lower(s[i..j])
  {
    var a, b := Lower(s)[i..j], Lower(s[i..j]);
    forall k | 0 <= k < |a|
      ensures a[k] == b[k]
    {
      LowerIndex(s, i + k);
      LowerIndex(s[i..j], k);
    }
    assert a == b;
  }

  lemma LowerIndex(s: string, k: int)
    requires 0 <= k < |s|
    ensures Lower(s)[k] == LowerChar(s[k])
  {
    LowerAt(s);
  }

  /** `t` occurs in `s` starting at index `i`. */
  predicate ContainsAt(s: string, t: string, i: int) {
    0 <= i && i + |t| <= |s| && s[i..i + |t|] == t
  }

  /** Python's `t in s` on strings: `t` is a prefix of some suffix of `s`. */
  predicate Contains(s: string, t: string)
    decreases |s|
  {
    StartsWith(s, t) || (s != [] && Contains(s[1..], t))
  }

  /** Python's `any(term in text for term in terms)`. */
  predicate AnyIn(terms: seq<string>, text: string) {
    exists i | 0 <= i < |terms| :: Contains(text, terms[i])
  }

  /** Python's `s.startswith(p)`. */
  predicate StartsWith(s: string, p: string) {
    |p| <= |s| && s[..|p|] == p
  }

  /** Python's `s.endswith(p)`. */
  predicate EndsWith(s: string, p: string) {
    |p| <= |s| && s[|s| - |p|..] == p
  }

  /** `t in s` holds exactly when `t` occurs in `s` at some index. */
  lemma {:induction false} ContainsIff(s: string, t: string)
    ensures Contains(s, t) <==> exists i | 0 <= i <= |s| - |t| :: ContainsAt(s, t, i)
    decreases |s|
  {
    if s == [] {
      if t == [] {
        assert ContainsAt(s, t, 0);
      }
    } else {
      ContainsIff(s[1..], t);
      if Contains(s[1..], t) {
        var i :| 0 <= i <= |s[1..]| - |t| && ContainsAt(s[1..], t, i);
        assert s[1..][i..i + |t|] == s[i + 1..i + 1 + |t|];
        assert ContainsAt(s, t, i + 1);
      }
      if StartsWith(s, t) {
        assert ContainsAt(s, t, 0);
      }
      if exists i | 0 <= i <= |s| - |t| :: ContainsAt(s, t, i) {
        var i :| 0 <= i <= |s| - |t| && ContainsAt(s, t, i);
        if i > 0 {
          assert s[1..][i - 1..i - 1 + |t|] == s[i..i + |t|];
          assert ContainsAt(s[1..], t, i - 1);
        }
      }
    }
  }

  lemma ContainsTransitive(u: string, t: string, w: string)
    requires Contains(u, t) && Contains(t, w)
    ensures Contains(u, w)
  {
    ContainsIff(u, t);
    ContainsIff(t, w);
    var i :| 0 <= i <= |u| - |t| && ContainsAt(u, t, i);
    var j :| 0 <= j <= |t| - |w| && ContainsAt(t, w, j);
    assert t == u[i..i + |t|];
    var a, b := u[i + j..i + j + |w|], t[j..j + |w|];
    forall k | 0 <= k < |w|
      ensures a[k] == b[k]
    {
      assert b[k] == t[j + k] == u[i..i + |t|][j + k];
    }
    assert a == b;
    assert ContainsAt(u, w, i + j);
    ContainsIff(u, w);
  }

  /** Substring containment survives lower-casing both sides. */
  lemma ContainsLower(u: string, t: string)
    requires Contains(u, t)
    ensures Contains(Lower(u), Lower(t))
  {
    var i := ContainsIndex(u, t);
    LowerSlice(u, i, i + |t|);
    ContainsAtIndex(Lower(u), Lower(t), i);
  }

  /** An index at which a contained string occurs. */
  lemma ContainsIndex(s: string, t: string) returns (i: int)
    requires Contains(s, t)
    ensures 0 <= i <= |s| - |t| && ContainsAt(s, t, i)
  {
    ContainsIff(s, t);
    i :| 0 <= i <= |s| - |t| && ContainsAt(s, t, i);
  }

  lemma ContainsAtIndex(s: string, t: string, i: int)
    requires ContainsAt(s, t, i)
    ensures Contains(s, t)
  {
    ContainsIff(s, t);
  }

  lemma ContainsInLarger(a: string, s: string, b: string, t: string)
    requires Contains(s, t)
    ensures Contains(a + s + b, t)
  {
    ContainsIff(s, t);
    var i :| 0 <= i <= |s| - |t| && ContainsAt(s, t, i);
    assert (a + s + b)[|a| + i..|a| + i + |t|] == s[i..i + |t|];
    assert ContainsAt(a + s + b, t, |a| + i);
    ContainsIff(a + s + b, t);
  }

  /**
   * The characters Python's `str.strip()` removes: the ASCII controls
   * 9-13 and 28-31, the space, and the Unicode whitespace above ASCII
   * (next line, no-break space, ogham mark, the spaces U+2000-U+200A,
   * the line and paragraph separators, the narrow and medium
   * mathematical spaces, and the ideographic space).
   */
  predicate IsSpace(c: char) {
    c == ' ' || 9 <= c as int <= 13 || 28 <= c as int <= 31 ||
    c == '\U{0085}' || c == '\U{00A0}' || c == '\U{1680}' || '\U{2000}' <= c <= '\U{200A}' ||
    c == '\U{2028}' || c == '\U{2029}' || c == '\U{202F}' || c == '\U{205F}' || c == '\U{3000}'
  }

  /** Python's `s.lstrip()`: the suffix left after dropping leading whitespace. */
  function StripLeft(s: string): (r: string)
    ensures |r| <= |s| && r == s[|s| - |r|..]
    ensures r == [] || !IsSpace(r[0])
  {
    if s != [] && IsSpace(s[0]) then StripLeft(s[1..]) else s
  }

  /** Python's `s.rstrip()`: the prefix left after dropping trailing whitespace. */
  function StripRight(s: string): (r: string)
    ensures |r| <= |s| && r == s[..|r|]
    ensures r == [] || !IsSpace(r[|r| - 1])
  {
    if s != [] && IsSpace(s[|s| - 1]) then StripRight(s[..|s| - 1]) else s
  }

  /** Python's `s.strip()`. */
  function Strip(s: string): string {
    StripRight(StripLeft(s))
  }

  /** A string that `strip` leaves unchanged. */
  predicate IsStripped(s: string) {
    s == [] || (!IsSpace(s[0]) && !IsSpace(s[|s| - 1]))
  }

  lemma StripLeftOfStripped(s: string)
    requires s == [] || !IsSpace(s[0])
    ensures StripLeft(s) == s
  {
  }

  lemma StripRightOfStripped(s: string)
    requires s == [] || !IsSpace(s[|s| - 1])
    ensures StripRight(s) == s
  {
  }

  /** `strip` returns a stripped string, and stripping is idempotent. */
  lemma StripIsStripped(s: string)
    ensures IsStripped(Strip(s))
    ensures Strip(Strip(s)) == Strip(s)
  {
    var l := StripLeft(s);
    var r := StripRight(l);
    assert r == l[..|r|];
    if r != [] {
      assert r[0] == l[0];
    }
    StripLeftOfStripped(r);
    StripRightOfStripped(r);
  }

  lemma StrippedIsFixed(s: string)
    requires IsStripped(s)
    ensures Strip(s) == s
  {
    StripLeftOfStripped(s);
    StripRightOfStripped(s);
  }

  /** Every character of `strip(s)` is a character of `s`. */
  lemma StripChars(s: string, c: char)
    requires c in Strip(s)
    ensures c in s
  {
    var l := StripLeft(s);
    var r := StripRight(l);
    var k :| 0 <= k < |r| && r[k] == c;
    assert l[k] == c;
    assert s[|s| - |l| + k] == c;
  }

  /** Lower-casing keeps a stripped string stripped. */
  lemma LowerKeepsStripped(s: string)
    requires IsStripped(s)
    ensures IsStripped(Lower(s))
  {
    LowerAt(s);
  }

  /** Lower-casing maps every character other than an upper-case letter to itself. */
  lemma LowerChars(s: string, c: char)
    requires c in Lower(s) && !('a' <= c <= 'z')
    ensures c in s
  {
    LowerAt(s);
    var k :| 0 <= k < |s| && Lower(s)[k] == c;
    assert s[k] == c;
  }

  /** Index of the first `d` in `s`, or `|s|` when there is none. */
  function IndexOf(s: string, d: char): (i: nat)
    ensures i <= |s|
    ensures i < |s| ==> s[i] == d
    ensures forall j :: 0 <= j < i ==> s[j] != d
  {
    if s == [] then 0 else if s[0] == d then 0 else 1 + IndexOf(s[1..], d)
  }

  /** Python's `s.split(d)` for a one-character separator. */
  function Split(s: string, d: char): (parts: seq<string>)
    ensures |parts| >= 1
    ensures forall k :: 0 <= k < |parts| ==> d !in parts[k]
    ensures d in s ==> |parts| >= 2
    decreases |s|
  {
    var i := IndexOf(s, d);
    if i == |s| then [s] else [s[..i]] + Split(s[i + 1..], d)
  }

  /** Python's `sep.join(parts)`. */
  function Join(sep: string, parts: seq<string>): string {
    if |parts| == 0 then "" else if |parts| == 1 then parts[0] else parts[0] + sep + Join(sep, parts[1..])
  }

  lemma {:induction false} JoinAppend(sep: string, a: seq<string>, b: seq<string>)
    requires |a| > 0 && |b| > 0
    ensures Join(sep, a + b) == Join(sep, a) + sep + Join(sep, b)
  {
    if |a| == 1 {
      assert (a + b)[1..] == b;
    } else {
      assert (a + b)[1..] == a[1..] + b;
      JoinAppend(sep, a[1..], b);
    }
  }

  /** Lines joined with "\n" split back into the same lines. */
  lemma SplitJoinLines(parts: seq<string>)
    requires |parts| >= 1
    requires forall k :: 0 <= k < |parts| ==> '\n' !in parts[k]
    ensures Split(Join("\n", parts), '\n') == parts
  {
    assert "\n" == ['\n'];
    SplitJoin(parts, '\n');
  }

  /** `split` undoes `join` when no part contains the separator. */
  lemma {:induction false} SplitJoin(parts: seq<string>, d: char)
    requires |parts| >= 1
    requires forall k :: 0 <= k < |parts| ==> d !in parts[k]
    ensures Split(Join([d], parts), d) == parts
    decreases |parts|
  {
    var s := Join([d], parts);
    if |parts| == 1 {
      assert IndexOf(s, d) == |s|;
    } else {
      var p := parts[0];
      var rest := Join([d], parts[1..]);
      assert s == p + [d] + rest;
      assert IndexOf(s, d) == |p| by {
        IndexOfPrefix(p, rest, d);
      }
      assert s[..|p|] == p;
      assert s[|p| + 1..] == rest;
      SplitJoin(parts[1..], d);
    }
  }

  lemma {:induction false} IndexOfPrefix(p: string, rest: string, d: char)
    requires d !in p
    ensures IndexOf(p + [d] + rest, d) == |p|
    decreases |p|
  {
    if p != [] {
      assert (p + [d] + rest)[1..] == p[1..] + [d] + rest;
      IndexOfPrefix(p[1..], rest, d);
    }
  }

  /** Splitting at the first separator: the part before it, then the rest split. */
  lemma SplitNone(s: string, d: char)
    requires d !in s
    ensures Split(s, d) == [s]
  {
    assert IndexOf(s, d) == |s|;
  }

  lemma SplitAtFirst(p: string, rest: string, d: char)
    requires d !in p
    ensures Split(p + [d] + rest, d) == [p] + Split(rest, d)
  {
    var s := p + [d] + rest;
    IndexOfPrefix(p, rest, d);
    assert s[..|p|] == p;
    assert s[|p| + 1..] == rest;
  }
}
