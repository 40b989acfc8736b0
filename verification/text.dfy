/**
 * The handful of Python string operations the backend relies on:
 * `strip()`, `lower()`/`upper()`, `sub in s`, `s[:n]`, `s.split('\n')[0]`
 * and `sep.join(parts)`. Strings are sequences of Unicode scalar values,
 * as Python's `str` is; case mapping covers the ASCII letters only.
 */
module Text {

  /** Python's `str.isspace()` for a single character. */
  predicate IsSpace(c: char) {
    || c == ' '
    || ('\t' <= c <= '\r')
    || ('\U{1C}' <= c <= '\U{1F}')
    || c == '\U{85}' || c == '\U{A0}' || c == '\U{1680}'
    || ('\U{2000}' <= c <= '\U{200A}')
    || c == '\U{2028}' || c == '\U{2029}' || c == '\U{202F}'
    || c == '\U{205F}' || c == '\U{3000}'
  }

  /** No character of `s` is whitespace. */
  predicate NoSpace(s: string) {
    forall k :: 0 <= k < |s| ==> !IsSpace(s[k])
  }

  /** Python's `s.strip()`: no whitespace at either end, and empty exactly for a blank input. */
  function Strip(s: string): (r: string)
    ensures |r| <= |s|
    ensures r == [] || (!IsSpace(r[0]) && !IsSpace(r[|r| - 1]))
    ensures r == [] <==> forall i :: 0 <= i < |s| ==> IsSpace(s[i])
  {
    if |s| > 0 && IsSpace(s[0]) then Strip(s[1..])
    else if |s| > 0 && IsSpace(s[|s| - 1]) then Strip(s[..|s| - 1])
    else s
  }

  /** The characters `Strip` removes all lie outside one slice of `s`. */
  lemma {:induction false} StripIsPaddedSlice(s: string) returns (a: nat, b: nat)
    ensures a <= b <= |s| && Strip(s) == s[a..b]
    ensures forall i :: 0 <= i < a || b <= i < |s| ==> IsSpace(s[i])
    decreases |s|
  {
    if |s| > 0 && IsSpace(s[0]) {
      var a', b' := StripIsPaddedSlice(s[1..]);
      a, b := a' + 1, b' + 1;
      PaddedSliceFront(s, s[1..], a', b');
    } else if |s| > 0 && IsSpace(s[|s| - 1]) {
      a, b := StripIsPaddedSlice(s[..|s| - 1]);
      PaddedSliceBack(s, s[..|s| - 1], a, b);
    } else {
      a, b := 0, |s|;
    }
  }

  /** A padded slice of `s[1..]` is one of `s` when `s` starts with whitespace. */
  lemma PaddedSliceFront(s: string, tail: string, a: nat, b: nat)
    requires |s| > 0 && IsSpace(s[0]) && tail == s[1..]
    requires a <= b <= |tail| && Strip(tail) == tail[a..b]
    requires forall i :: 0 <= i < a || b <= i < |tail| ==> IsSpace(tail[i])
    ensures Strip(s) == s[a + 1..b + 1]
    ensures forall i :: 0 <= i < a + 1 || b + 1 <= i < |s| ==> IsSpace(s[i])
  {
    assert Strip(s) == Strip(tail);
    assert tail[a..b] == s[a + 1..b + 1];
    forall i | 0 <= i < a + 1 || b + 1 <= i < |s| ensures IsSpace(s[i]) {
      if i > 0 {
        assert s[i] == tail[i - 1];
      }
    }
  }

  /** A padded slice of `s` without its last character is one of `s` when `s` ends with whitespace. */
  lemma PaddedSliceBack(s: string, init: string, a: nat, b: nat)
    requires |s| > 0 && IsSpace(s[|s| - 1]) && !IsSpace(s[0]) && init == s[..|s| - 1]
    requires a <= b <= |init| && Strip(init) == init[a..b]
    requires forall i :: 0 <= i < a || b <= i < |init| ==> IsSpace(init[i])
    ensures Strip(s) == s[a..b]
    ensures forall i :: 0 <= i < a || b <= i < |s| ==> IsSpace(s[i])
  {
    assert Strip(s) == Strip(init);
    assert init[a..b] == s[a..b];
    forall i | 0 <= i < a || b <= i < |s| ensures IsSpace(s[i]) {
      if i < |s| - 1 {
        assert s[i] == init[i];
      }
    }
  }

  /** `s.strip()` is a substring of `s`. */
  lemma ContainsStrip(s: string)
    ensures Contains(s, Strip(s))
  {
    var a, b := StripIsPaddedSlice(s);
    ContainsFromOccurrence(s, Strip(s), a);
  }

  /** Stripping never introduces a character that was not there. */
  lemma StripKeepsAbsence(s: string, c: char)
    requires c !in s
    ensures c !in Strip(s)
  {
    var a, b := StripIsPaddedSlice(s);
    assert Strip(s) == s[a..b];
  }

  /** A string with no whitespace at either end is its own `strip()`. */
  lemma StripUnpadded(s: string)
    requires s == [] || (!IsSpace(s[0]) && !IsSpace(s[|s| - 1]))
    ensures Strip(s) == s
  {
  }

  /** Stripping twice is stripping once. */
  lemma StripIdempotent(s: string)
    ensures Strip(Strip(s)) == Strip(s)
  {
    StripUnpadded(Strip(s));
  }

  function LowerChar(c: char): char {
    if 'A' <= c <= 'Z' then (c as int + 32) as char else c
  }

  function UpperChar(c: char): char {
    if 'a' <= c <= 'z' then (c as int - 32) as char else c
  }

  /** `s.lower()` on ASCII letters (JavaScript's `toLowerCase` likewise). */
  function Lower(s: string): string {
    seq(|s|, i requires 0 <= i < |s| => LowerChar(s[i]))
  }

  /** `s.upper()` on ASCII letters. */
  function Upper(s: string): string {
    seq(|s|, i requires 0 <= i < |s| => UpperChar(s[i]))
  }

  predicate StartsWith(s: string, prefix: string) {
    |prefix| <= |s| && s[..|prefix|] == prefix
  }

  /** `sub` occurs in `s` starting at index `i`. */
  predicate OccursAt(s: string, sub: string, i: int) {
    0 <= i && i + |sub| <= |s| && s[i..i + |sub|] == sub
  }

  /** Python's `sub in s` on strings. */
  predicate Contains(s: string, sub: string)
    decreases |s|
  {
    StartsWith(s, sub) || (|s| > 0 && Contains(s[1..], sub))
  }

  /** An occurrence at any index makes `Contains` true. */
  lemma {:induction false} ContainsFromOccurrence(s: string, sub: string, i: int)
    requires OccursAt(s, sub, i)
    ensures Contains(s, sub)
    decreases i
  {
    if i > 0 {
      assert s[1..][i - 1..i - 1 + |sub|] == s[i..i + |sub|];
      ContainsFromOccurrence(s[1..], sub, i - 1);
    }
  }

  /** `Contains` is witnessed by an occurrence index. */
  lemma {:induction false} OccurrenceFromContains(s: string, sub: string) returns (i: nat)
    requires Contains(s, sub)
    ensures OccursAt(s, sub, i)
    decreases |s|
  {
    if StartsWith(s, sub) {
      i := 0;
    } else {
      var j := OccurrenceFromContains(s[1..], sub);
      assert s[1..][j..j + |sub|] == s[j + 1..j + 1 + |sub|];
      i := j + 1;
    }
  }

  /** `Contains` means exactly "occurs at some index". */
  lemma ContainsIff(s: string, sub: string)
    ensures Contains(s, sub) <==> exists i :: OccursAt(s, sub, i)
  {
    if Contains(s, sub) {
      var i := OccurrenceFromContains(s, sub);
    }
    if exists i :: OccursAt(s, sub, i) {
      var i :| OccursAt(s, sub, i);
      ContainsFromOccurrence(s, sub, i);
    }
  }

  /** Substring containment is transitive. */
  lemma ContainsTransitive(s: string, m: string, w: string)
    requires Contains(s, m) && Contains(m, w)
    ensures Contains(s, w)
  {
    var i := OccurrenceFromContains(s, m);
    var j := OccurrenceFromContains(m, w);
    forall k | 0 <= k < |w| ensures s[i + j + k] == w[k] {
      assert s[i..i + |m|][j + k] == m[j + k];
      assert m[j..j + |w|][k] == w[k];
    }
    assert s[i + j..i + j + |w|] == w;
    ContainsFromOccurrence(s, w, i + j);
  }

  /** An occurrence inside a slice is an occurrence in the whole string. */
  lemma ContainsFromSlice(s: string, a: nat, b: nat, w: string)
    requires a <= b <= |s| && Contains(s[a..b], w)
    ensures Contains(s, w)
  {
    var t := s[a..b];
    var i := OccurrenceFromContains(t, w);
    forall k | 0 <= k < |w| ensures s[a + i + k] == w[k] {
      assert t[i + k] == s[a + i + k];
      assert t[i..i + |w|][k] == w[k];
    }
    assert s[a + i..a + i + |w|] == w;
    ContainsFromOccurrence(s, w, a + i);
  }

  /** A word without whitespace cannot overlap the whitespace padding around a slice. */
  lemma ContainsInSlice(s: string, a: nat, b: nat, w: string)
    requires a <= b <= |s|
    requires forall i :: 0 <= i < a || b <= i < |s| ==> IsSpace(s[i])
    requires w != [] && NoSpace(w)
    requires Contains(s, w)
    ensures Contains(s[a..b], w)
  {
    var i := OccurrenceFromContains(s, w);
    var t := s[a..b];
    assert s[i..i + |w|][0] == w[0];
    assert s[i..i + |w|][|w| - 1] == w[|w| - 1];
    assert a <= i && i + |w| <= b;
    forall k | 0 <= k < |w| ensures t[i - a + k] == w[k] {
      assert s[i..i + |w|][k] == w[k];
    }
    assert t[i - a..i - a + |w|] == w;
    ContainsFromOccurrence(t, w, i - a);
  }

  /**
   * A word without whitespace occurs in `s` iff it occurs in a slice of `s`
   * whose surroundings are all whitespace.
   */
  lemma ContainsInPaddedSlice(s: string, a: nat, b: nat, w: string)
    requires a <= b <= |s|
    requires forall i :: 0 <= i < a || b <= i < |s| ==> IsSpace(s[i])
    requires w != [] && NoSpace(w)
    ensures Contains(s[a..b], w) <==> Contains(s, w)
  {
    if Contains(s[a..b], w) {
      ContainsFromSlice(s, a, b, w);
    }
    if Contains(s, w) {
      ContainsInSlice(s, a, b, w);
    }
  }

  /** A word without whitespace occurs in `s.strip()` iff it occurs in `s`. */
  lemma ContainsStripped(s: string, w: string)
    requires w != [] && NoSpace(w)
    ensures Contains(Strip(s), w) <==> Contains(s, w)
  {
    var a, b := StripIsPaddedSlice(s);
    ContainsInPaddedSlice(s, a, b, w);
  }

  /** A word without whitespace occurs in `s.strip().upper()` iff it occurs in `s.upper()`. */
  lemma ContainsUpperStripped(s: string, w: string)
    requires w != [] && NoSpace(w)
    ensures Contains(Upper(Strip(s)), w) <==> Contains(Upper(s), w)
  {
    var a, b := StripIsPaddedSlice(s);
    var u := Upper(s);
    assert Upper(Strip(s)) == u[a..b];
    ContainsInPaddedSlice(u, a, b, w);
  }

  /** The first element of Python's `s.split('\n')`. */
  function FirstLine(s: string): (r: string)
    ensures '\n' !in r
    ensures StartsWith(s, r)
    ensures |r| < |s| ==> s[|r|] == '\n'
  {
    if |s| == 0 || s[0] == '\n' then [] else [s[0]] + FirstLine(s[1..])
  }

  /** The first line of `s` is a substring of `s`, and all of it when `s` has no newline. */
  lemma ContainsFirstLine(s: string)
    ensures Contains(s, FirstLine(s))
    ensures '\n' !in s ==> FirstLine(s) == s
  {
    ContainsFromOccurrence(s, FirstLine(s), 0);
  }

  /** Python's `s[:n]` for a non-negative `n`, on strings and lists alike. */
  function Take<T>(s: seq<T>, n: nat): (r: seq<T>)
    ensures |r| == if |s| <= n then |s| else n
    ensures r == s[..|r|]
  {
    if |s| <= n then s else s[..n]
  }

  /** Python's `sep.join(parts)`. */
  function Join(sep: string, parts: seq<string>): string {
    if |parts| == 0 then ""
    else if |parts| == 1 then parts[0]
    else parts[0] + sep + Join(sep, parts[1..])
  }

  /** Python's `str(n)` for a natural number. */
  function DecimalString(n: nat): string {
    var digit := ('0' as int + n % 10) as char;
    if n < 10 then [digit] else DecimalString(n / 10) + [digit]
  }
}
