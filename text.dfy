/**
 * The few Python string operations the modelled code relies on:
 * `str.find`, `str.split`, `str.join`, `str.strip`, `str(int)` and `int(str)`.
 * Strings are sequences of characters; `\d` in the regular expressions is
 * taken to be an ASCII digit.
 */
module Text {

  predicate IsDigit(c: char) { '0' <= c <= '9' }

  predicate AllDigits(s: string) { forall i :: 0 <= i < |s| ==> IsDigit(s[i]) }

  function DigitValue(c: char): (d: nat)
    requires IsDigit(c)
    ensures d < 10
  {
    (c as int) - ('0' as int)
  }

  function DigitChar(d: nat): (c: char)
    requires d < 10
    ensures IsDigit(c) && DigitValue(c) == d
  {
    ('0' as int + d) as char
  }

  /** `int(s)` for a non-empty run of ASCII digits (leading zeros allowed). */
  function DigitsValue(s: string): nat
    requires AllDigits(s)
  {
    if s == [] then 0 else DigitsValue(s[..|s| - 1]) * 10 + DigitValue(s[|s| - 1])
  }

  /** `str(n)` for a natural number: shortest decimal numeral, no leading zero. */
  function NatToString(n: nat): (r: string)
    ensures |r| > 0 && AllDigits(r)
    ensures DigitsValue(r) == n
    ensures r[0] == '0' ==> n == 0
  {
    if n < 10 then [DigitChar(n)]
    else
      var r := NatToString(n / 10) + [DigitChar(n % 10)];
      assert r[..|r| - 1] == NatToString(n / 10);
      r
  }

  /** Appending different numbers to one prefix gives different strings (names from a counter never repeat). */
  lemma {:induction false} SuffixedNamesDistinct(base: string, m: nat, n: nat)
    requires m != n
    ensures base + NatToString(m) != base + NatToString(n)
  {
    assert (base + NatToString(m))[|base|..] == NatToString(m);
    assert (base + NatToString(n))[|base|..] == NatToString(n);
  }

  // ----- str.find / str.split / str.join -----

  predicate OccursAt(s: string, sub: string, k: nat)
  {
    k + |sub| <= |s| && s[k..k + |sub|] == sub
  }

  /** `s.find(sub, i)`: the lowest index at or after i where sub occurs, or -1. */
  function FindFrom(s: string, sub: string, i: nat): (r: int)
    ensures r == -1 || (i <= r && OccursAt(s, sub, r))
    ensures r == -1 ==> forall k :: i <= k ==> !OccursAt(s, sub, k)
    ensures r != -1 ==> forall k :: i <= k < r ==> !OccursAt(s, sub, k)
    decreases |s| - i
  {
    if i + |sub| > |s| then -1
    else if s[i..i + |sub|] == sub then i
    else FindFrom(s, sub, i + 1)
  }

  /** `sep.join(parts)`. */
  function Join(parts: seq<string>, sep: string): string
  {
    if |parts| == 0 then ""
    else if |parts| == 1 then parts[0]
    else parts[0] + sep + Join(parts[1..], sep)
  }

  /** An occurrence inside a prefix of s is an occurrence inside s. */
  lemma {:induction false} OccursInPrefix(s: string, sub: string, k: nat, n: nat)
    requires n <= |s| && OccursAt(s[..n], sub, k)
    ensures OccursAt(s, sub, k)
  {
    assert s[..n][k..k + |sub|] == s[k..k + |sub|];
  }

  /** No occurrence lies wholly before the first one. */
  lemma {:induction false} NoneBeforeFirst(s: string, sep: string, i: nat)
    requires |sep| > 0 && i == FindFrom(s, sep, 0)
    ensures FindFrom(s[..i], sep, 0) == -1
  {
    forall k | 0 <= k && OccursAt(s[..i], sep, k) ensures false {
      OccursInPrefix(s, sep, k, i);
    }
  }

  /** `s.split(sep)` for a non-empty separator: cut at each leftmost occurrence. */
  function Split(s: string, sep: string): (r: seq<string>)
    requires |sep| > 0
    ensures |r| >= 1
    ensures Join(r, sep) == s
    decreases |s|
  {
    var i := FindFrom(s, sep, 0);
    if i == -1 then [s]
    else
      var head := s[..i];
      var tail := Split(s[i + |sep|..], sep);
      var r := [head] + tail;
      assert r[1..] == tail;
      assert s == head + sep + s[i + |sep|..];
      r
  }

  /** No piece of a split contains the separator. */
  lemma {:induction false} SplitPiecesClean(s: string, sep: string)
    requires |sep| > 0
    ensures forall p :: p in Split(s, sep) ==> FindFrom(p, sep, 0) == -1
    decreases |s|
  {
    var i := FindFrom(s, sep, 0);
    if i != -1 {
      var tail := Split(s[i + |sep|..], sep);
      assert Split(s, sep) == [s[..i]] + tail;
      SplitPiecesClean(s[i + |sep|..], sep);
      NoneBeforeFirst(s, sep, i);
    }
  }

  /** Searching a longer string finds the same first occurrence when it lies in the prefix. */
  lemma {:induction false} FindInPrefix(s: string, t: string, sub: string, i: nat)
    requires FindFrom(s, sub, i) != -1
    ensures FindFrom(s + t, sub, i) == FindFrom(s, sub, i)
    decreases |s| - i
  {
    if s[i..i + |sub|] == sub {
      assert (s + t)[i..i + |sub|] == sub;
    } else {
      assert (s + t)[i..i + |sub|] == s[i..i + |sub|];
      FindInPrefix(s, t, sub, i + 1);
    }
  }

  /**
   * A part is a clean split field when the separator first occurs right after it,
   * i.e. it neither contains the separator nor forms one with the separator's start.
   */
  predicate CleanPart(p: string, sep: string)
  {
    FindFrom(p + sep, sep, 0) == |p|
  }

  /** Splitting a join of clean parts gives the parts back. */
  lemma {:induction false} SplitJoin(parts: seq<string>, sep: string)
    requires |sep| > 0 && |parts| >= 1
    requires forall k :: 0 <= k < |parts| ==> CleanPart(parts[k], sep)
    ensures Split(Join(parts, sep), sep) == parts
    decreases |parts|
  {
    var p := parts[0];
    if |parts| == 1 {
      assert OccursAt(p + sep, sep, |p|);
      if FindFrom(p, sep, 0) != -1 {
        FindInPrefix(p, sep, sep, 0);
      }
    } else {
      var rest := Join(parts[1..], sep);
      var s := p + sep + rest;
      assert s == (p + sep) + rest;
      FindInPrefix(p + sep, rest, sep, 0);
      assert s[..|p|] == p;
      assert s[|p| + |sep|..] == rest;
      SplitJoin(parts[1..], sep);
    }
  }

  // ----- str.strip -----

  /** `str.isspace` for one character. */
  predicate IsSpace(c: char)
  {
    c == ' ' || ('\t' <= c <= '\r') || ('\U{1C}' <= c <= '\U{1F}')
    || c == '\U{85}' || c == '\U{A0}' || c == '\U{1680}'
    || ('\U{2000}' <= c <= '\U{200A}') || c == '\U{2028}' || c == '\U{2029}'
    || c == '\U{202F}' || c == '\U{205F}' || c == '\U{3000}'
  }

  function LStrip(s: string): (r: string)
    ensures |r| <= |s| && r == s[|s| - |r|..]
    ensures r == [] || !IsSpace(r[0])
  {
    if s != [] && IsSpace(s[0]) then LStrip(s[1..]) else s
  }

  function RStrip(s: string): (r: string)
    ensures |r| <= |s| && r == s[..|r|]
    ensures r == [] || !IsSpace(r[|r| - 1])
  {
    if s != [] && IsSpace(s[|s| - 1]) then RStrip(s[..|s| - 1]) else s
  }

  /** `s.strip()`: drop leading and trailing whitespace. */
  function Strip(s: string): string
  {
    RStrip(LStrip(s))
  }

  /** A string with no whitespace at either end is left as it is by strip. */
  lemma {:induction false} StripUntouched(s: string)
    requires s != [] && !IsSpace(s[0]) && !IsSpace(s[|s| - 1])
    ensures Strip(s) == s
  {
  }
}
