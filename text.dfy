/**
 * The handful of Python `str` operations the importer, the de-duplicator and the request
 * validators rely on: `strip`, `lower`, `replace(c, '')`, `isalnum`, `startswith`,
 * `endswith`, slicing, `join`, and the byte-wise string order of a database `ORDER BY`.
 */
module Text {

  /** Python's `str.isspace()` for a single character: the Unicode whitespace characters. */
  predicate IsSpace(c: char) {
    || c == ' '
    || '\t' <= c <= '\r'
    || '\U{1C}' <= c <= '\U{1F}'
    || c == '\U{85}' || c == '\U{A0}' || c == '\U{1680}'
    || '\U{2000}' <= c <= '\U{200A}'
    || c == '\U{2028}' || c == '\U{2029}' || c == '\U{202F}' || c == '\U{205F}' || c == '\U{3000}'
  }

  /** The argument of a call to `str.strip`: none (whitespace) or a single character. */
  datatype Strippable = Whitespace | Only(c: char)

  predicate Strips(k: Strippable, c: char) {
    match k
    case Whitespace => IsSpace(c)
    case Only(d) => c == d
  }

  /** `s.lstrip(...)`: every strippable character taken off the front. */
  function StripStart(s: string, k: Strippable): (r: string)
    ensures |r| <= |s|
    ensures r == [] || !Strips(k, r[0])
  {
    if s != [] && Strips(k, s[0]) then StripStart(s[1..], k) else s
  }

  /** `s.rstrip(...)`: every strippable character taken off the back. */
  function StripEnd(s: string, k: Strippable): (r: string)
    ensures |r| <= |s|
    ensures r == [] || !Strips(k, r[|r| - 1])
  {
    if s != [] && Strips(k, s[|s| - 1]) then StripEnd(s[..|s| - 1], k) else s
  }

  /**
   * `s.strip(...)`: every strippable character taken off both ends. The result neither starts
   * nor ends with a strippable character.
   */
  function Strip(s: string, k: Strippable): (r: string)
    ensures |r| <= |s|
    ensures r == [] || (!Strips(k, r[0]) && !Strips(k, r[|r| - 1]))
  {
    StripEndKeepsStart(StripStart(s, k), k);
    StripEnd(StripStart(s, k), k)
  }

  lemma {:induction false} StripEndKeepsStart(s: string, k: Strippable)
    requires s == [] || !Strips(k, s[0])
    ensures var r := StripEnd(s, k); r == [] || r[0] == s[0]
    decreases |s|
  {
    if s != [] && Strips(k, s[|s| - 1]) {
      StripEndKeepsStart(s[..|s| - 1], k);
    }
  }

  /** `r` is the infix of `s` at `i`, and everything of `s` outside it is strippable. */
  ghost predicate StrippedAt(s: string, r: string, i: nat, k: Strippable) {
    && i + |r| <= |s| && r == s[i..i + |r|]
    && (forall a :: 0 <= a < i ==> Strips(k, s[a]))
    && (forall b :: i + |r| <= b < |s| ==> Strips(k, s[b]))
  }

  lemma {:induction false} StripStartAt(s: string, k: Strippable)
    ensures StrippedAt(s, StripStart(s, k), |s| - |StripStart(s, k)|, k)
    decreases |s|
  {
    if s != [] && Strips(k, s[0]) {
      StripStartAt(s[1..], k);
      var r := StripStart(s, k);
      var i := |s| - |r|;
      assert r == s[1..][i - 1..i - 1 + |r|];
      forall a | 0 <= a < i ensures Strips(k, s[a]) {
        if a > 0 {
          assert s[a] == s[1..][a - 1];
        }
      }
    }
  }

  lemma {:induction false} StripEndAt(s: string, k: Strippable)
    ensures StrippedAt(s, StripEnd(s, k), 0, k)
    decreases |s|
  {
    if s != [] && Strips(k, s[|s| - 1]) {
      StripEndAt(s[..|s| - 1], k);
      var r := StripEnd(s, k);
      forall b | |r| <= b < |s| ensures Strips(k, s[b]) {
        if b < |s| - 1 {
          assert s[b] == s[..|s| - 1][b];
        }
      }
    }
  }

  /** What is left after stripping is an infix of `s` outside which every character is strippable. */
  lemma StripInfix(s: string, k: Strippable)
    ensures exists i :: 0 <= i <= |s| && StrippedAt(s, Strip(s, k), i, k)
  {
    var t := StripStart(s, k);
    var i := |s| - |t|;
    StripStartAt(s, k);
    StripEndAt(t, k);
    var r := Strip(s, k);
    assert r == t[..|r|];
    assert r == s[i..i + |r|];
    forall b | i + |r| <= b < |s| ensures Strips(k, s[b]) {
      assert s[b] == t[b - i];
    }
    assert StrippedAt(s, r, i, k);
  }

  /** Stripping never brings in a character that was not there. */
  lemma StripKeepsOut(s: string, k: Strippable, c: char)
    requires c !in s
    ensures c !in Strip(s, k)
  {
    StripInfix(s, k);
    var t := Strip(s, k);
    var i :| 0 <= i <= |s| && StrippedAt(s, t, i, k);
    forall j | 0 <= j < |t| ensures t[j] != c {
      assert t[j] == s[i + j];
    }
  }

  lemma {:induction false} StripStartPadding(pre: string, rest: string, k: Strippable)
    requires forall i :: 0 <= i < |pre| ==> Strips(k, pre[i])
    requires rest == [] || !Strips(k, rest[0])
    ensures StripStart(pre + rest, k) == rest
    decreases |pre|
  {
    if pre == [] {
      assert pre + rest == rest;
    } else {
      assert (pre + rest)[0] == pre[0];
      assert (pre + rest)[1..] == pre[1..] + rest;
      StripStartPadding(pre[1..], rest, k);
    }
  }

  lemma {:induction false} StripEndPadding(rest: string, post: string, k: Strippable)
    requires forall i :: 0 <= i < |post| ==> Strips(k, post[i])
    requires rest == [] || !Strips(k, rest[|rest| - 1])
    ensures StripEnd(rest + post, k) == rest
    decreases |post|
  {
    if post == [] {
      assert rest + post == rest;
    } else {
      var s := rest + post;
      assert s[|s| - 1] == post[|post| - 1];
      assert s[..|s| - 1] == rest + post[..|post| - 1];
      StripEndPadding(rest, post[..|post| - 1], k);
    }
  }

  /**
   * The defining property of `strip`: padding a core that neither starts nor ends with a
   * strippable character by strippable characters on both sides, then stripping, gives the core back.
   */
  lemma StripPadding(pre: string, core: string, post: string, k: Strippable)
    requires forall i :: 0 <= i < |pre| ==> Strips(k, pre[i])
    requires forall i :: 0 <= i < |post| ==> Strips(k, post[i])
    requires core == [] || (!Strips(k, core[0]) && !Strips(k, core[|core| - 1]))
    ensures Strip(pre + core + post, k) == core
  {
    assert pre + core + post == pre + (core + post);
    if core == [] {
      assert core + post == post;
      assert forall i :: 0 <= i < |pre + post| ==> Strips(k, (pre + post)[i]);
      StripStartPadding(pre + post, [], k);
      assert pre + post + [] == pre + post;
    } else {
      assert (core + post)[0] == core[0];
      StripStartPadding(pre, core + post, k);
      StripEndPadding(core, post, k);
    }
  }

  /** Python's `str.lower()` on one character (ASCII letters only). */
  function LowerChar(c: char): char {
    if 'A' <= c <= 'Z' then (c as int + 32) as char else c
  }

  /** Python's `str.lower()`, character by character. */
  function Lower(s: string): (r: string)
    ensures |r| == |s|
    ensures forall i :: 0 <= i < |s| ==> r[i] == LowerChar(s[i])
  {
    if s == [] then [] else [LowerChar(s[0])] + Lower(s[1..])
  }

  /** Lower-casing twice is lower-casing once. */
  lemma LowerIdempotent(s: string)
    ensures Lower(Lower(s)) == Lower(s)
  {
  }

  lemma LowerAppend(a: string, b: string)
    ensures Lower(a + b) == Lower(a) + Lower(b)
  {
    assert forall i :: 0 <= i < |a + b| ==> Lower(a + b)[i] == (Lower(a) + Lower(b))[i];
  }

  /** Python's `s.replace(c, '')`: every occurrence of `c` goes, and the rest stay (in order: `RemoveCharAppend`). */
  function RemoveChar(s: string, c: char): (r: string)
    ensures c !in r
    ensures forall d :: d != c ==> multiset(r)[d] == multiset(s)[d]
    ensures |r| <= |s|
  {
    if s == [] then []
    else
      assert s == [s[0]] + s[1..];
      (if s[0] == c then [] else [s[0]]) + RemoveChar(s[1..], c)
  }

  /**
   * Removing `c` works piece by piece: the kept characters of a concatenation are those of its
   * first part followed by those of its second, so the characters kept stay in their order.
   */
  lemma {:induction false} RemoveCharAppend(a: string, b: string, c: char)
    ensures RemoveChar(a + b, c) == RemoveChar(a, c) + RemoveChar(b, c)
  {
    if a == [] {
      assert a + b == b;
    } else {
      assert (a + b)[0] == a[0] && (a + b)[1..] == a[1..] + b;
      RemoveCharAppend(a[1..], b, c);
    }
  }

  /** Python's `str.isalnum()` on one character (ASCII letters and digits). */
  predicate IsAlnumChar(c: char) {
    'a' <= c <= 'z' || 'A' <= c <= 'Z' || '0' <= c <= '9'
  }

  /** Python's `str.isalnum()`: false on the empty string. */
  predicate IsAlnum(s: string) {
    |s| > 0 && forall i :: 0 <= i < |s| ==> IsAlnumChar(s[i])
  }

  predicate StartsWith(s: string, prefix: string) {
    |prefix| <= |s| && s[..|prefix|] == prefix
  }

  predicate EndsWith(s: string, suffix: string) {
    |suffix| <= |s| && s[|s| - |suffix|..] == suffix
  }

  /** `sub` occurs in `s` as a contiguous run of characters (Python's `sub in s`). */
  predicate Contains(s: string, sub: string)
    decreases |s|
  {
    StartsWith(s, sub) || (s != [] && Contains(s[1..], sub))
  }

  /** Python's slice `s[:n]`. */
  function Take(s: string, n: nat): (r: string)
    ensures |r| == if |s| < n then |s| else n
    ensures StartsWith(s, r)
  {
    if |s| <= n then s else s[..n]
  }

  /** Python's `sep.join(parts)`. */
  function Join(parts: seq<string>, sep: string): string {
    if parts == [] then ""
    else if |parts| == 1 then parts[0]
    else parts[0] + sep + Join(parts[1..], sep)
  }

  function DigitChar(d: nat): char
    requires d < 10
  {
    ('0' as int + d) as char
  }

  /** Python's `str(n)` for a natural number. */
  function NatToString(n: nat): string {
    if n < 10 then [DigitChar(n)] else NatToString(n / 10) + [DigitChar(n % 10)]
  }

  /**
   * The order of a text column under `ORDER BY` with binary collation: lexicographic by
   * code point, a proper prefix first (byte order of UTF-8 is code-point order).
   */
  predicate Less(a: string, b: string)
    decreases |a|
  {
    if a == [] then b != []
    else if b == [] then false
    else a[0] < b[0] || (a[0] == b[0] && Less(a[1..], b[1..]))
  }

  lemma {:induction false} LessIrreflexive(a: string)
    ensures !Less(a, a)
    decreases |a|
  {
    if a != [] {
      LessIrreflexive(a[1..]);
    }
  }

  lemma {:induction false} LessTransitive(a: string, b: string, c: string)
    requires Less(a, b) && Less(b, c)
    ensures Less(a, c)
    decreases |a|
  {
    if a != [] && b != [] && c != [] && a[0] == b[0] == c[0] {
      LessTransitive(a[1..], b[1..], c[1..]);
    }
  }

  lemma {:induction false} LessTotal(a: string, b: string)
    requires a != b
    ensures Less(a, b) || Less(b, a)
    decreases |a|
  {
    if a != [] && b != [] && a[0] == b[0] {
      assert a == [a[0]] + a[1..] && b == [b[0]] + b[1..];
      LessTotal(a[1..], b[1..]);
    }
  }
}
