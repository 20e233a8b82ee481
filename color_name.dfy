/**
 * The line-style lookup by attribute name, `Color.bkg_2` and friends: the
 * name is split by `^([^_\d]*)(_?)(\d+)$` into a base and a signed offset,
 * and the base selects a line style and a colour shifted by the offset.
 */
module ColorName {
  import opened Outcomes
  import opened Text

  /** A character the first group `[^_\d]` accepts. */
  predicate NameChar(c: char)
  {
    c != '_' && !IsDigit(c)
  }

  /** Length of the longest prefix of name characters: what a greedy `[^_\d]*` consumes. */
  function NamePrefix(s: string): (r: nat)
    ensures r <= |s| && (forall i :: 0 <= i < r ==> NameChar(s[i]))
    ensures r == |s| || !NameChar(s[r])
  {
    if s != [] && NameChar(s[0]) then 1 + NamePrefix(s[1..]) else 0
  }

  /** The text the trailing `$` leaves for `\d+`: a single final newline may follow the match. */
  function BeforeEnd(s: string): string
  {
    if s != [] && s[|s| - 1] == '\n' then s[..|s| - 1] else s
  }

  /**
   * What follows the base: `(_?)(\d+)` up to the end or a final newline gives
   * the offset, negative when the underscore is there; `None` when the rest
   * of the name has another shape.
   */
  function Offset(rest: string): Option<int>
  {
    var body := BeforeEnd(rest);
    var neg := body != [] && body[0] == '_';
    var digits := if neg then body[1..] else body;
    if digits != [] && AllDigits(digits) then
      Some(if neg then -(DigitsValue(digits) as int) else DigitsValue(digits))
    else None
  }

  /**
   * The base name and offset: a name of the form `<base><digits>` gives
   * `+digits`, `<base>_<digits>` gives `-digits`; any other name is its own
   * base with offset 0.
   */
  function ParseName(attr: string): (string, int)
  {
    var p := NamePrefix(attr);
    match Offset(attr[p..])
    case Some(n) => (attr[..p], n)
    case None => (attr, 0)
  }

  /** The name-character prefix of a base followed by a non-name character is that base. */
  lemma {:induction false} NamePrefixOf(base: string, tail: string)
    requires Base(base)
    requires tail != [] && !NameChar(tail[0])
    ensures NamePrefix(base + tail) == |base|
    decreases |base|
  {
    if base != [] {
      assert (base + tail)[1..] == base[1..] + tail;
      NamePrefixOf(base[1..], tail);
    } else {
      assert base + tail == tail;
    }
  }

  /** A base: no `_` and no digits. */
  ghost predicate Base(base: string)
  {
    forall i :: 0 <= i < |base| ==> NameChar(base[i])
  }

  /** The offset suffix as it is written: optional underscore, the digits of `str(k)`, optional final newline. */
  function OffsetText(k: nat, neg: bool, newline: bool): string
  {
    (if neg then "_" else "") + NatToString(k) + (if newline then "\n" else "")
  }

  /** The `$` anchor leaves exactly the text before an optional final newline. */
  lemma {:induction false} BeforeEndOf(x: string, newline: bool)
    requires x != [] && x[|x| - 1] != '\n'
    ensures BeforeEnd(x + (if newline then "\n" else "")) == x
  {
    if newline {
      assert (x + "\n")[..|x|] == x;
    } else {
      assert x + "" == x;
    }
  }

  /** A written offset suffix reads back as its signed value. */
  lemma {:induction false} OffsetRoundTrip(k: nat, neg: bool, newline: bool)
    ensures Offset(OffsetText(k, neg, newline)) == Some(if neg then -(k as int) else k)
  {
    var digits := NatToString(k);
    var body := (if neg then "_" else "") + digits;
    assert OffsetText(k, neg, newline) == body + (if newline then "\n" else "");
    assert body[|body| - 1] == digits[|digits| - 1];
    BeforeEndOf(body, newline);
    if neg {
      assert body[1..] == digits;
    } else {
      assert body == digits;
    }
  }

  /**
   * Writing a base, an underscore for a negative offset, the offset's digits
   * and optionally one final newline gives a name that parses back to the
   * base and the offset.
   */
  lemma {:induction false} NameRoundTrip(base: string, k: nat, neg: bool, newline: bool)
    requires Base(base)
    ensures ParseName(base + OffsetText(k, neg, newline)) == (base, if neg then -(k as int) else k)
  {
    var tail := OffsetText(k, neg, newline);
    var attr := base + tail;
    assert tail[0] == if neg then '_' else NatToString(k)[0];
    NamePrefixOf(base, tail);
    assert attr[|base|..] == tail;
    assert attr[..|base|] == base;
    OffsetRoundTrip(k, neg, newline);
  }

  /** A name that does not end in a digit (before an optional final newline) has offset 0 and is its own base. */
  lemma {:induction false} NoDigitsNoOffset(attr: string)
    requires var e := BeforeEnd(attr); e == [] || !IsDigit(e[|e| - 1])
    ensures ParseName(attr) == (attr, 0)
  {
    var p := NamePrefix(attr);
    var rest := attr[p..];
    var body := BeforeEnd(rest);
    var neg := body != [] && body[0] == '_';
    var digits := if neg then body[1..] else body;
    var e := BeforeEnd(attr);
    assert body != [] ==> body[|body| - 1] == e[|e| - 1] by {
      if attr != [] && attr[|attr| - 1] == '\n' && p < |attr| {
        assert rest[|rest| - 1] == '\n';
        assert body == attr[p..|attr| - 1];
      }
    }
    assert digits != [] ==> digits[|digits| - 1] == body[|body| - 1];
    assert digits != [] ==> !IsDigit(digits[|digits| - 1]);
  }

  /**
   * `^([^_\d]*)(_?)(\d+)$` matches `attr` with the first group ending at `p`,
   * the second group `_` exactly when `neg`, and the third group `digits`:
   * `$` matches at the end or before a final newline.
   */
  ghost predicate MatchWith(attr: string, p: nat, neg: bool, digits: string)
  {
    p <= |attr| && Base(attr[..p]) && digits != [] && AllDigits(digits)
    && BeforeEnd(attr[p..]) == (if neg then "_" else "") + digits
  }

  /** The pattern matches the name in some way. */
  ghost predicate Matches(attr: string)
  {
    exists p: nat, neg: bool, digits: string :: MatchWith(attr, p, neg, digits)
  }

  /**
   * A matching name parses to its first group and the value of its digits,
   * negated when the underscore is there; leading zeros count for nothing.
   */
  lemma {:induction false} MatchParses(attr: string, p: nat, neg: bool, digits: string)
    requires MatchWith(attr, p, neg, digits)
    ensures ParseName(attr) == (attr[..p], if neg then -(DigitsValue(digits) as int) else DigitsValue(digits))
  {
    OffsetOfDigits(attr[p..], neg, digits);
    PrefixBeforeNonName(attr, p);
  }

  /** A run of name characters followed by another character is the name-character prefix. */
  lemma {:induction false} PrefixBeforeNonName(attr: string, p: nat)
    requires p < |attr| && Base(attr[..p]) && !NameChar(attr[p])
    ensures NamePrefix(attr) == p
  {
    assert attr == attr[..p] + attr[p..];
    NamePrefixOf(attr[..p], attr[p..]);
  }

  /** The text after the base, when it is `[_]<digits>` before an optional final newline, gives the signed digits. */
  lemma {:induction false} OffsetOfDigits(rest: string, neg: bool, digits: string)
    requires digits != [] && AllDigits(digits)
    requires BeforeEnd(rest) == (if neg then "_" else "") + digits
    ensures rest != [] && !NameChar(rest[0])
    ensures Offset(rest) == Some(if neg then -(DigitsValue(digits) as int) else DigitsValue(digits))
  {
    var body := BeforeEnd(rest);
    assert body != [] && body[0] == rest[0];
    if neg {
      assert body[0] == '_' && body[1..] == digits;
    } else {
      assert body == digits && IsDigit(body[0]);
    }
  }

  /** A name the pattern does not match is its own base with offset 0. */
  lemma {:induction false} NoMatchNoOffset(attr: string)
    requires !Matches(attr)
    ensures ParseName(attr) == (attr, 0)
  {
    var p := NamePrefix(attr);
    var body := BeforeEnd(attr[p..]);
    var neg := body != [] && body[0] == '_';
    var digits := if neg then body[1..] else body;
    if digits != [] && AllDigits(digits) {
      assert Base(attr[..p]);
      assert body == (if neg then "_" else "") + digits;
      assert MatchWith(attr, p, neg, digits);
      assert false;
    }
  }

  /** `bkg_02` reads its offset as `int("02")`: the same pen as `bkg_2`. */
  lemma {:induction false} LeadingZeroExample()
    ensures Lookup("bkg_02") == Some(Pen(Some(Dashed), Shade(Red, -2)))
  {
    assert "bkg_02"[..3] == "bkg";
    assert "bkg_02"[3..] == "_02";
    assert BeforeEnd("_02") == "_" + "02";
    MatchParses("bkg_02", 3, true, "02");
  }

  /** The line styles the lookup uses. */
  datatype LineStyle = Dashed | Dotted | StyleNumber(index: int)

  /** The ROOT colour families the lookup shifts. */
  datatype Hue = Red | Cyan | Violet | Orange | Yellow | Blue | Green | Magenta

  /** A line colour: a family shifted by an offset, or a fixed colour index. */
  datatype LineColor = Shade(hue: Hue, offset: int) | ColorIndex(index: int)

  /** The drawing options returned: an optional line style and a line colour. */
  datatype Pen = Pen(style: Option<LineStyle>, color: LineColor)

  /** The pen for a base name and offset; `None` for a base the lookup does not know. */
  function PenFor(base: string, n: int): Option<Pen>
  {
    if base == "bkg" then Some(Pen(Some(Dashed), Shade(Red, n)))
    else if base == "cyan" then Some(Pen(Some(Dashed), Shade(Cyan, n)))
    else if base == "violet" then Some(Pen(Some(Dashed), Shade(Violet, n)))
    else if base == "orange" then Some(Pen(Some(Dashed), Shade(Orange, n)))
    else if base == "yellow" then Some(Pen(Some(Dashed), Shade(Yellow, n)))
    else if base == "bluedot" then Some(Pen(Some(Dotted), Shade(Blue, n)))
    else if base == "blue" then Some(Pen(Some(Dashed), Shade(Blue, n)))
    else if base == "green" then Some(Pen(Some(Dotted), Shade(Green, n)))
    else if base == "magenta" then Some(Pen(Some(Dashed), Shade(Magenta, n)))
    else if base == "red" then Some(Pen(None, Shade(Red, n)))
    else if base == "brown" then Some(Pen(Some(StyleNumber(9)), ColorIndex(28)))
    else None
  }

  /** The bases the lookup knows. */
  const KnownBases: set<string> := {"bkg", "cyan", "violet", "orange", "yellow", "bluedot", "blue", "green", "magenta", "red", "brown"}

  /** `Color.<attr>` / `Color(attr)`. */
  function Lookup(attr: string): Option<Pen>
  {
    var (base, n) := ParseName(attr);
    PenFor(base, n)
  }

  /** The lookup answers exactly for the known bases; every shaded colour carries the offset it was given. */
  lemma {:induction false} PenForKnown(base: string, n: int)
    ensures PenFor(base, n).Some? <==> base in KnownBases
    ensures PenFor(base, n).Some? && PenFor(base, n).value.color.Shade? ==> PenFor(base, n).value.color.offset == n
  {
  }

  /** `bkg_2` is the dashed red shifted down by 2. */
  lemma {:induction false} BkgExample()
    ensures Lookup("bkg_2") == Some(Pen(Some(Dashed), Shade(Red, -2)))
  {
    NameRoundTrip("bkg", 2, true, false);
    assert "bkg" + OffsetText(2, true, false) == "bkg_2";
  }

  /** `blue3` is the dashed blue shifted up by 3. */
  lemma {:induction false} BlueExample()
    ensures Lookup("blue3") == Some(Pen(Some(Dashed), Shade(Blue, 3)))
  {
    NameRoundTrip("blue", 3, false, false);
    assert "blue" + OffsetText(3, false, false) == "blue3";
  }

  /** A name finds a pen exactly when its base is one the lookup knows; otherwise the lookup returns nothing. */
  lemma {:induction false} LookupKnown(attr: string)
    ensures Lookup(attr).Some? <==> ParseName(attr).0 in KnownBases
  {
    var (base, n) := ParseName(attr);
    PenForKnown(base, n);
  }
}
