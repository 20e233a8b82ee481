/**
 * The line format of a saved likelihood curve: `"<n> <val>"`, read with the
 * start-anchored pattern `(\d+(?:\.\d+)?) (\d+(?:\.\d+)?(?:e-?\d+)?)`.
 * Each scanner below is the greedy reading of one part of that pattern: it
 * returns the exact decimal value it read and the text that follows.
 */
module NumberTokens {
  import opened Outcomes
  import opened Text

  /** How many ASCII digits `s` starts with: what a greedy `\d*` consumes. */
  function DigitPrefix(s: string): (r: nat)
    ensures r <= |s| && AllDigits(s[..r])
    ensures r == |s| || !IsDigit(s[r])
  {
    if s != [] && IsDigit(s[0]) then
      var r := 1 + DigitPrefix(s[1..]);
      assert s[..r] == [s[0]] + s[1..][..r - 1];
      r
    else 0
  }

  /** The digit run of a concatenation stops inside the first part or runs on into the second. */
  lemma {:induction false} DigitPrefixConcat(x: string, y: string)
    ensures DigitPrefix(x + y) == if DigitPrefix(x) < |x| then DigitPrefix(x) else |x| + DigitPrefix(y)
  {
    if x != [] {
      assert (x + y)[1..] == x[1..] + y;
      DigitPrefixConcat(x[1..], y);
    } else {
      assert x + y == y;
    }
  }

  function Pow10(e: nat): (r: nat)
    ensures r > 0
  {
    if e == 0 then 1 else 10 * Pow10(e - 1)
  }

  /** `m * 10**e` for a signed exponent, exactly. */
  function Scale(m: real, e: int): real
  {
    if e >= 0 then m * Pow10(e) as real else m / Pow10(-e) as real
  }

  /** The value of the numeral `<whole>.<frac>`. */
  function Fraction(whole: string, frac: string): real
    requires AllDigits(whole) && AllDigits(frac)
  {
    DigitsValue(whole) as real + DigitsValue(frac) as real / Pow10(|frac|) as real
  }

  /** Greedy `\d+(?:\.\d+)?` at the start of `s`: its exact value and what follows it. */
  function ScanDecimal(s: string): (r: Option<(real, string)>)
    ensures r.Some? ==> |r.value.1| < |s| && r.value.1 == s[|s| - |r.value.1|..]
  {
    var a := DigitPrefix(s);
    if a == 0 then None
    else
      var whole := DigitsValue(s[..a]) as real;
      var rest := s[a..];
      var b := if rest != [] && rest[0] == '.' then DigitPrefix(rest[1..]) else 0;
      if b > 0 then
        Some((Fraction(s[..a], rest[1..][..b]), rest[1..][b..]))
      else Some((whole, rest))
  }

  /** Greedy optional `(?:e-?\d+)?`: the exponent it reads (0 when absent) and what follows. */
  function ScanExponent(s: string): (r: (int, string))
    ensures |r.1| <= |s|
  {
    if s != [] && s[0] == 'e' then
      var t := s[1..];
      if t != [] && t[0] == '-' && DigitPrefix(t[1..]) > 0 then
        var d := DigitPrefix(t[1..]);
        (-(DigitsValue(t[1..][..d]) as int), t[1..][d..])
      else if DigitPrefix(t) > 0 then
        var d := DigitPrefix(t);
        (DigitsValue(t[..d]), t[d..])
      else (0, s)
    else (0, s)
  }

  /** The value read from the second field: mantissa scaled by the optional exponent; the rest is ignored. */
  function ScanValue(s: string): Option<real>
  {
    match ScanDecimal(s)
    case None => None
    case Some((m, tail)) => Some(Scale(m, ScanExponent(tail).0))
  }

  /**
   * One line of a saved curve: `Some((n, val))` when the line starts with the
   * pattern, `None` when `re.match` fails. Text after the match is ignored.
   */
  function ParseLine(line: string): Option<(real, real)>
  {
    match ScanDecimal(line)
    case None => None
    case Some((n, rest)) =>
      if rest != [] && rest[0] == ' ' then
        match ScanValue(rest[1..])
        case None => None
        case Some(v) => Some((n, v))
      else None
  }

  /** `s` is exactly one `\d+(\.\d+)?` numeral of value `v`, with no whitespace. */
  predicate KeyToken(s: string, v: real)
  {
    ScanDecimal(s) == Some((v, "")) && forall i :: 0 <= i < |s| ==> !IsSpace(s[i])
  }

  /** `s` reads as the value `v` in the second field and holds no whitespace. */
  predicate ValueToken(s: string, v: real)
  {
    ScanValue(s) == Some(v) && forall i :: 0 <= i < |s| ==> !IsSpace(s[i])
  }

  /** A complete numeral followed by a character that cannot continue it scans the same. */
  lemma {:induction false} ScanDecimalExtend(s: string, t: string, v: real)
    requires ScanDecimal(s) == Some((v, ""))
    requires t != [] && !IsDigit(t[0]) && t[0] != '.'
    ensures ScanDecimal(s + t) == Some((v, t))
  {
    var a := DigitPrefix(s);
    DigitPrefixConcat(s, t);
    if a == |s| {
      assert s[..a] == s;
      WholeExtend(s, t);
    } else {
      var rest := s[a..];
      assert rest[0] == '.' && rest[1..] == s[a + 1..];
      var b := DigitPrefix(rest[1..]);
      assert b > 0 && rest[1..][b..] == [];
      assert rest[1..][..b] == s[a + 1..];
      FractionExtend(s, t, a);
    }
  }

  /** The numeral is all digits: the digit run stops at `t`, which does not start a fraction. */
  lemma {:induction false} WholeExtend(s: string, t: string)
    requires s != [] && DigitPrefix(s) == |s|
    requires t != [] && !IsDigit(t[0]) && t[0] != '.'
    ensures ScanDecimal(s + t) == Some((DigitsValue(s) as real, t))
  {
    DigitPrefixConcat(s, t);
    DigitPrefixConcat(t, []);
    assert (s + t)[..|s|] == s[..|s|] == s;
    assert (s + t)[|s|..] == t;
  }

  /** The numeral has a fraction that runs to its end: the fraction's digit run stops at `t`. */
  lemma {:induction false} FractionExtend(s: string, t: string, a: nat)
    requires a == DigitPrefix(s) && 0 < a < |s|
    requires s[a] == '.' && DigitPrefix(s[a + 1..]) == |s| - a - 1 > 0 && AllDigits(s[a + 1..])
    requires t != [] && !IsDigit(t[0])
    ensures ScanDecimal(s + t) == Some((Fraction(s[..a], s[a + 1..]), t))
  {
    var rest := s[a..];
    var b := |s| - a - 1;
    assert rest[1..][..b] == s[a + 1..];
    DigitPrefixConcat(s, t);
    assert (s + t)[..a] == s[..a];
    assert (s + t)[a..] == rest + t;
    assert rest[1..] == s[a + 1..];
    assert (rest + t)[1..] == rest[1..] + t;
    DigitPrefixConcat(rest[1..], t);
    assert (rest[1..] + t)[..b] == rest[1..][..b];
    assert (rest[1..] + t)[b..] == t;
    assert rest[1..][b..] == [];
  }

  /** A line written as `"<key> <value>"` from two well-formed tokens reads back as the two values. */
  lemma {:induction false} LineRoundTrip(a: string, b: string, n: real, v: real)
    requires KeyToken(a, n) && ValueToken(b, v)
    ensures ParseLine(a + " " + b) == Some((n, v))
  {
    ScanDecimalExtend(a, " " + b, n);
    assert a + " " + b == a + (" " + b);
    assert (" " + b)[1..] == b;
  }

  /** `"3 1.5e+20"` starts with the key `3`, followed by the rest of the line. */
  lemma {:induction false} ScanKeyThree()
    ensures ScanDecimal("3 1.5e+20") == Some((3.0, " 1.5e+20"))
  {
    var line := "3 1.5e+20";
    assert DigitPrefix(line[1..]) == 0;
    assert DigitPrefix(line) == 1;
    assert line[..1] == "3" && line[1..] == " 1.5e+20";
    assert DigitsValue("3") == 3;
  }

  /** `"1.5e+20"` starts with the mantissa 1.5, followed by `e+20`. */
  lemma {:induction false} ScanMantissa()
    ensures ScanDecimal("1.5e+20") == Some((1.5, "e+20"))
  {
    var s := "1.5e+20";
    assert DigitPrefix(s[1..]) == 0;
    assert DigitPrefix(s) == 1;
    assert s[..1] == "1" && s[1..] == ".5e+20";
    assert ".5e+20"[1..] == "5e+20";
    assert DigitPrefix("5e+20"[1..]) == 0;
    assert DigitPrefix("5e+20") == 1;
    assert "5e+20"[..1] == "5" && "5e+20"[1..] == "e+20";
    assert DigitsValue("1") == 1 && DigitsValue("5") == 5;
  }

  /** `e+20` is no exponent: the pattern allows only an optional minus sign. */
  lemma {:induction false} PlusIsNoExponent()
    ensures ScanExponent("e+20") == (0, "e+20")
  {
    assert "e+20"[1..] == "+20";
    assert DigitPrefix("+20") == 0;
  }

  /** The exponent needs an optional minus and digits: `1.5e+20` reads as 1.5, the `e+20` is ignored. */
  lemma {:induction false} PlusExponentIgnored()
    ensures ParseLine("3 1.5e+20") == Some((3.0, 1.5))
  {
    ScanKeyThree();
    ScanMantissa();
    PlusIsNoExponent();
    assert " 1.5e+20"[1..] == "1.5e+20";
  }
}
