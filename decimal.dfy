/**
  Decimal text for integers: Python's `str(n)` / `"%d"`, `"%03d"` and `int(s)`
  (base 10, surrounding whitespace, one optional sign, digits that may be
  grouped by single underscores).
*/
module Decimal {
  import opened Wrappers
  import Text

  predicate IsDigit(c: char)
  {
    '0' <= c <= '9'
  }

  predicate AllDigits(s: string)
  {
    forall i :: 0 <= i < |s| ==> IsDigit(s[i])
  }

  function DigitChar(d: nat): (c: char)
    requires d < 10
    ensures IsDigit(c)
  {
    ('0' as int + d) as char
  }

  function DigitValue(c: char): (d: nat)
    requires IsDigit(c)
    ensures d < 10 && DigitChar(d) == c
  {
    c as int - '0' as int
  }

  /** Python `str(n)` for `n >= 0`: digits only, no leading zero. */
  function NatToString(n: nat): (s: string)
    ensures |s| >= 1 && AllDigits(s)
    ensures n == 0 <==> s == "0"
    ensures n > 0 ==> s[0] != '0'
  {
    if n < 10 then [DigitChar(n)] else NatToString(n / 10) + [DigitChar(n % 10)]
  }

  /** The number a string of digits denotes; leading zeros are allowed. */
  function DigitsValue(s: string): nat
    requires AllDigits(s)
  {
    if s == [] then 0 else DigitsValue(s[..|s| - 1]) * 10 + DigitValue(s[|s| - 1])
  }

  /** A non-empty run of ASCII digits, read in base 10. */
  function ParseNat(s: string): (r: Option<nat>)
    ensures r.Some? <==> s != [] && AllDigits(s)
  {
    if s != [] && AllDigits(s) then Some(DigitsValue(s)) else None
  }

  /** Python `str(i)` / `"%d" % i`. */
  function IntToString(i: int): (s: string)
    ensures |s| >= 1 && (s[0] == '-' <==> i < 0)
    ensures forall k :: 0 < k < |s| ==> IsDigit(s[k])
  {
    if i < 0 then "-" + NatToString(-i) else NatToString(i)
  }

  /**
    The digits of an integer literal as `int()` takes them: ASCII digits,
    starting and ending with one, where an underscore may stand between two
    digits (`1_000`) but never next to another underscore.
  */
  predicate Grouped(s: string)
  {
    && s != [] && IsDigit(s[0]) && IsDigit(s[|s| - 1])
    && (forall i :: 0 <= i < |s| ==> IsDigit(s[i]) || s[i] == '_')
    && (forall i :: 0 <= i < |s| - 1 ==> !DoubleUnderscore(s, i))
  }

  /** Two underscores in a row at `i`. */
  predicate DoubleUnderscore(s: string, i: nat)
    requires i + 1 < |s|
  {
    s[i] == '_' && s[i + 1] == '_'
  }

  /** The number a grouped literal denotes: its digits in base 10, underscores skipped. */
  function GroupedValue(s: string): nat
    requires forall i :: 0 <= i < |s| ==> IsDigit(s[i]) || s[i] == '_'
  {
    if s == [] then 0
    else if s[|s| - 1] == '_' then GroupedValue(s[..|s| - 1])
    else GroupedValue(s[..|s| - 1]) * 10 + DigitValue(s[|s| - 1])
  }

  /**
    Python `int(s)` on Latin-1 text, `None` where Python raises `ValueError`:
    whitespace around the number is ignored, one `+` or `-` may lead, then
    grouped ASCII digits (the only decimal digits Latin-1 has).
  */
  function ParseInt(s: string): (r: Option<int>)
    ensures var t := Text.Strip(s);
      r.Some? <==> Grouped(t) || (|t| >= 2 && (t[0] == '-' || t[0] == '+') && Grouped(t[1..]))
    ensures r.Some? && r.value < 0 ==> Text.Strip(s)[0] == '-'
  {
    ParseLiteral(Text.Strip(s))
  }

  /** `int()` on the text once the surrounding whitespace is cut off. */
  function ParseLiteral(t: string): (r: Option<int>)
    ensures r.Some? <==> Grouped(t) || (|t| >= 2 && (t[0] == '-' || t[0] == '+') && Grouped(t[1..]))
    ensures r.Some? && r.value < 0 ==> t[0] == '-'
  {
    if t != [] && (t[0] == '-' || t[0] == '+') then
      if Grouped(t[1..]) then
        var m: int := GroupedValue(t[1..]);
        Some(if t[0] == '-' then -m else m)
      else None
    else if Grouped(t) then Some(GroupedValue(t))
    else None
  }

  /** Reading back the digits `str(n)` writes gives `n`. */
  lemma {:induction false} NatToStringValue(n: nat)
    ensures DigitsValue(NatToString(n)) == n
  {
    if n >= 10 {
      NatToStringValue(n / 10);
      var s := NatToString(n);
      assert s[..|s| - 1] == NatToString(n / 10);
    }
  }

  /** Plain digits are a grouped literal, denoting what they denote without grouping. */
  lemma {:induction false} DigitsGrouped(d: string)
    requires AllDigits(d)
    ensures d != [] ==> Grouped(d)
    ensures GroupedValue(d) == DigitsValue(d)
  {
    if d != [] {
      DigitsGrouped(d[..|d| - 1]);
    }
  }

  /** Unsigned plain digits read back as their value. */
  lemma PlainLiteral(d: string)
    requires d != [] && AllDigits(d)
    ensures ParseLiteral(d) == Some(DigitsValue(d))
  {
    DigitsGrouped(d);
    assert IsDigit(d[0]);
  }

  /** A minus sign before plain digits reads back as the negated value. */
  lemma SignedLiteral(d: string, n: nat)
    requires d != [] && AllDigits(d) && DigitsValue(d) == n
    ensures ParseLiteral("-" + d) == Some(-(n as int))
  {
    DigitsGrouped(d);
    assert ("-" + d)[1..] == d;
  }

  /** `int()` takes single underscores between digits and refuses doubled, leading or trailing ones. */
  lemma UnderscoreLiterals()
    ensures ParseLiteral("1_000") == Some(1000)
    ensures ParseLiteral("-1_0") == Some(-10)
    ensures ParseLiteral("1__0") == None
    ensures ParseLiteral("_1") == None && ParseLiteral("1_") == None
  {
    assert "1_000"[..4] == "1_00" && "1_00"[..3] == "1_0" && "1_0"[..2] == "1_" && "1_"[..1] == "1";
    assert "1"[..0] == [];
    assert GroupedValue("1_0") == 10;
    assert GroupedValue("1_000") == 1000;
    assert forall i :: 0 <= i < 4 ==> !DoubleUnderscore("1_000", i);
    assert "-1_0"[1..] == "1_0";
    assert DoubleUnderscore("1__0", 1);
  }

  /** `int(str(i)) == i`. */
  lemma IntRoundTrip(i: int)
    ensures ParseInt(IntToString(i)) == Some(i)
  {
    Text.StripUnpadded(IntToString(i));
    LiteralRoundTrip(i);
  }

  /** `str(i)` has no surrounding whitespace, so this is the whole of `int(str(i)) == i`. */
  lemma LiteralRoundTrip(i: int)
    ensures ParseLiteral(IntToString(i)) == Some(i)
  {
    if i < 0 {
      var d := NatToString(-i);
      NatToStringValue(-i);
      SignedLiteral(d, -i);
    } else {
      NatToStringValue(i);
      PlainLiteral(NatToString(i));
    }
  }

  function Zeros(k: nat): (z: string)
    ensures |z| == k && AllDigits(z)
    ensures forall j :: 0 <= j < k ==> z[j] == '0'
  {
    seq(k, _ => '0')
  }

  /** Python `"%03d" % n` for `n >= 0`: `str(n)` left-padded with zeros to at least three characters. */
  function Format03(n: nat): (s: string)
    ensures |s| == if |NatToString(n)| >= 3 then |NatToString(n)| else 3
    ensures AllDigits(s)
    ensures s == Zeros(|s| - |NatToString(n)|) + NatToString(n)
  {
    var d := NatToString(n);
    if |d| >= 3 then
      assert Zeros(0) + d == d;
      d
    else Zeros(3 - |d|) + d
  }

  lemma {:induction false} LeadingZerosValue(z: string, s: string)
    requires forall j :: 0 <= j < |z| ==> z[j] == '0'
    requires AllDigits(s)
    ensures AllDigits(z + s) && DigitsValue(z + s) == DigitsValue(s)
    decreases |s|, |z|
  {
    if s == [] {
      assert z + s == z;
      if z != [] {
        LeadingZerosValue(z[..|z| - 1], []);
        assert z[..|z| - 1] + [] == z[..|z| - 1];
      }
    } else {
      var u := s[..|s| - 1];
      LeadingZerosValue(z, u);
      assert (z + s)[..|z + s| - 1] == z + u;
    }
  }

  /** The padded form still reads back as `n`. */
  lemma Format03RoundTrip(n: nat)
    ensures ParseNat(Format03(n)) == Some(n)
  {
    var d := NatToString(n);
    LeadingZerosValue(Zeros(|Format03(n)| - |d|), d);
    NatToStringValue(n);
  }
}
