/**
  The handful of Python `str` operations the server relies on, written out on
  `seq<char>`: `startswith`, `strip`, `split(c)`, `split(c, 1)`, `split(c, 2)`,
  `split()`, `lower`, `upper` and `sep.join`.

  Header bytes reach these functions through a Latin-1 decoding, so `IsSpace`
  is Python's `str.isspace` on the Latin-1 range. Case mapping is ASCII only.
*/
module Text {
  import opened Wrappers

  /** Python `s.startswith(p)`. */
  predicate StartsWith(s: string, p: string)
  {
    |p| <= |s| && s[..|p|] == p
  }

  /** Python `str.isspace()` on one Latin-1 character. */
  predicate IsSpace(c: char)
  {
    c == ' ' || ('\t' <= c <= '\r') || ('\U{1C}' <= c <= '\U{1F}') || c == '\U{85}' || c == '\U{A0}'
  }

  predicate AllSpace(s: string)
  {
    forall i :: 0 <= i < |s| ==> IsSpace(s[i])
  }

  /** How many whitespace characters `s` starts with. */
  function LeadingSpaces(s: string): (n: nat)
    ensures n <= |s| && (n == |s| || !IsSpace(s[n]))
    ensures forall i :: 0 <= i < n ==> IsSpace(s[i])
  {
    if s != [] && IsSpace(s[0]) then
      var m := LeadingSpaces(s[1..]);
      assert forall i :: 1 <= i < m + 1 ==> s[i] == s[1..][i - 1];
      m + 1
    else 0
  }

  /** How many whitespace characters `s` ends with. */
  function TrailingSpaces(s: string): (n: nat)
    ensures n <= |s| && (n == |s| || !IsSpace(s[|s| - n - 1]))
    ensures forall i :: |s| - n <= i < |s| ==> IsSpace(s[i])
  {
    if s != [] && IsSpace(s[|s| - 1]) then
      var m := TrailingSpaces(s[..|s| - 1]);
      assert forall i :: |s| - 1 - m <= i < |s| - 1 ==> s[i] == s[..|s| - 1][i];
      m + 1
    else 0
  }

  /** Python `s.lstrip()`. */
  function StripLeft(s: string): (r: string)
    ensures |r| <= |s| && r == s[|s| - |r|..]
    ensures r == [] || !IsSpace(r[0])
    ensures AllSpace(s[..|s| - |r|])
  {
    s[LeadingSpaces(s)..]
  }

  /** Python `s.rstrip()`. */
  function StripRight(s: string): (r: string)
    ensures |r| <= |s| && r == s[..|r|]
    ensures r == [] || !IsSpace(r[|r| - 1])
    ensures AllSpace(s[|r|..])
  {
    s[..|s| - TrailingSpaces(s)]
  }

  /** Python `s.strip()`: the slice of `s` left when leading and trailing whitespace is cut off. */
  function Strip(s: string): (r: string)
    ensures r == [] || (!IsSpace(r[0]) && !IsSpace(r[|r| - 1]))
    ensures var i := |s| - |StripLeft(s)|;
      i + |r| <= |s| && r == s[i..i + |r|] && AllSpace(s[..i]) && AllSpace(s[i + |r|..])
    ensures r == [] <==> AllSpace(s)
  {
    var l := StripLeft(s);
    var r := StripRight(l);
    assert r != [] ==> r[0] == l[0];
    StripSlice(s, l, r);
    StripEmptyIff(s, l, r);
    r
  }

  /** What `strip` keeps is a slice of `s` with only whitespace around it. */
  lemma StripSlice(s: string, l: string, r: string)
    requires l == StripLeft(s) && r == StripRight(l)
    ensures var i := |s| - |l|;
      i + |r| <= |s| && r == s[i..i + |r|] && AllSpace(s[..i]) && AllSpace(s[i + |r|..])
  {
    var i := |s| - |l|;
    assert s[i + |r|..] == l[|r|..];
  }

  /** `strip` leaves nothing exactly when `s` is all whitespace. */
  lemma StripEmptyIff(s: string, l: string, r: string)
    requires l == StripLeft(s) && r == StripRight(l)
    ensures r == [] <==> AllSpace(s)
  {
    if l == [] {
      assert s[..|s|] == s;
    }
  }

  /** Text that neither starts nor ends with whitespace is left alone by `strip`. */
  lemma StripUnpadded(s: string)
    requires s != [] && !IsSpace(s[0]) && !IsSpace(s[|s| - 1])
    ensures Strip(s) == s
  {
    assert StripLeft(s) == s;
    assert StripRight(s) == s;
  }

  lemma {:induction false} StripIdempotent(s: string)
    ensures Strip(Strip(s)) == Strip(s)
  {
    var r := Strip(s);
    assert StripLeft(r) == r;
    assert StripRight(r) == r;
  }

  /** Python `s.lower()` on ASCII letters. */
  function LowerChar(c: char): char
  {
    if 'A' <= c <= 'Z' then (c as int + 32) as char else c
  }

  /** Python `s.upper()` on ASCII letters. */
  function UpperChar(c: char): char
  {
    if 'a' <= c <= 'z' then (c as int - 32) as char else c
  }

  function Lower(s: string): (r: string)
    ensures |r| == |s| && forall i :: 0 <= i < |s| ==> r[i] == LowerChar(s[i])
  {
    seq(|s|, i requires 0 <= i < |s| => LowerChar(s[i]))
  }

  function Upper(s: string): (r: string)
    ensures |r| == |s| && forall i :: 0 <= i < |s| ==> r[i] == UpperChar(s[i])
  {
    seq(|s|, i requires 0 <= i < |s| => UpperChar(s[i]))
  }

  /** `Upper` leaves an upper-cased string as it is. */
  lemma UpperIdempotent(s: string)
    ensures Upper(Upper(s)) == Upper(s)
  {
  }

  /** Index of the first `c` in `s` (Python `s.find(c)`, `None` for -1). */
  function IndexOf(s: string, c: char): (r: Option<nat>)
    ensures r.None? <==> c !in s
    ensures r.Some? ==> r.value < |s| && s[r.value] == c && c !in s[..r.value]
  {
    if s == [] then None
    else if s[0] == c then Some(0)
    else match IndexOf(s[1..], c)
      case None => None
      case Some(i) =>
        assert s[1..][..i] == s[1..i + 1];
        Some(i + 1)
  }

  /** Python `sep.join(parts)`. */
  function JoinWith(parts: seq<string>, sep: string): (r: string)
  {
    if parts == [] then ""
    else if |parts| == 1 then parts[0]
    else parts[0] + sep + JoinWith(parts[1..], sep)
  }

  /** The last part of a join of two or more parts follows the last separator. */
  lemma {:induction false} JoinWithLast(parts: seq<string>, sep: string)
    requires |parts| >= 2
    ensures JoinWith(parts, sep) == JoinWith(parts[..|parts| - 1], sep) + sep + parts[|parts| - 1]
    decreases |parts|
  {
    if |parts| > 2 {
      JoinWithLast(parts[1..], sep);
      assert parts[1..][..|parts| - 2] == parts[..|parts| - 1][1..];
    }
  }

  /** A join of two or more parts, with `tail` after it, starts with the first part and a separator and ends with a separator, the last part and `tail`. */
  lemma JoinEnds(parts: seq<string>, sep: string, tail: string)
    requires |parts| >= 2
    ensures var t, e := JoinWith(parts, sep) + tail, sep + parts[|parts| - 1] + tail;
      StartsWith(t, parts[0] + sep) && |e| <= |t| && t[|t| - |e|..] == e
  {
    var j := JoinWith(parts, sep);
    var first, rest := parts[0] + sep, JoinWith(parts[1..], sep);
    assert j == first + rest;
    Regroup(first, rest, tail);
    ConcatEnds(first, rest + tail);
    JoinWithLast(parts, sep);
    var init := JoinWith(parts[..|parts| - 1], sep);
    Regroup(init + sep, parts[|parts| - 1], tail);
    Regroup(init, sep, parts[|parts| - 1] + tail);
    Regroup(sep, parts[|parts| - 1], tail);
    ConcatEnds(init, sep + parts[|parts| - 1] + tail);
  }

  lemma Regroup(a: string, b: string, c: string)
    ensures a + b + c == a + (b + c)
  {
  }

  /** The middle piece of a three-piece concatenation is found at its own offset. */
  lemma SliceInside(a: string, b: string, c: string)
    ensures (a + b + c)[|a|..|a| + |b|] == b
  {
    assert (a + b + c)[..|a| + |b|] == a + b;
    assert (a + b)[|a|..] == b;
  }

  /** A concatenation starts with its first piece and ends with its second. */
  lemma ConcatEnds(a: string, b: string)
    ensures StartsWith(a + b, a) && |b| <= |a + b| && (a + b)[|a + b| - |b|..] == b
  {
    assert (a + b)[..|a|] == a;
    assert (a + b)[|a|..] == b;
  }

  /** Python `s.split(c)` for a one-character separator: never empty, no piece holds `c`. */
  function Split(s: string, c: char): (r: seq<string>)
    ensures |r| >= 1
    ensures forall i :: 0 <= i < |r| ==> c !in r[i]
  {
    if s == [] then [""]
    else
      var rest := Split(s[1..], c);
      if s[0] == c then [""] + rest
      else [[s[0]] + rest[0]] + rest[1..]
  }

  /** Joining the pieces of a split gives back the original text. */
  lemma {:induction false} JoinSplit(s: string, c: char)
    ensures JoinWith(Split(s, c), [c]) == s
  {
    if s != [] {
      JoinSplit(s[1..], c);
      var rest := Split(s[1..], c);
      if s[0] != c && |rest| > 1 {
        assert JoinWith(Split(s, c), [c]) == [s[0]] + rest[0] + [c] + JoinWith(rest[1..], [c]);
      }
    }
  }

  /** Splitting a join of separator-free pieces gives back the pieces. */
  lemma {:induction false} SplitJoin(parts: seq<string>, c: char)
    requires |parts| >= 1
    requires forall i :: 0 <= i < |parts| ==> c !in parts[i]
    ensures Split(JoinWith(parts, [c]), c) == parts
  {
    if |parts| == 1 {
      SplitNoSep(parts[0], c);
    } else {
      SplitJoin(parts[1..], c);
      SplitPrefix(parts[0], JoinWith(parts[1..], [c]), c);
      assert parts[0] + [c] + JoinWith(parts[1..], [c]) == parts[0] + ([c] + JoinWith(parts[1..], [c]));
    }
  }

  lemma {:induction false} SplitNoSep(s: string, c: char)
    requires c !in s
    ensures Split(s, c) == [s]
  {
    if s != [] {
      SplitNoSep(s[1..], c);
      assert [s[0]] + s[1..] == s;
    }
  }

  /** A separator-free head followed by the separator splits off as the first piece. */
  lemma {:induction false} SplitPrefix(a: string, b: string, c: char)
    requires c !in a
    ensures Split(a + ([c] + b), c) == [a] + Split(b, c)
  {
    if a == [] {
      assert a + ([c] + b) == [c] + b;
      assert ([c] + b)[1..] == b;
    } else {
      SplitPrefix(a[1..], b, c);
      assert (a + ([c] + b))[1..] == a[1..] + ([c] + b);
      assert [a[0]] + a[1..] == a;
    }
  }

  /** Python `s.split(c, 1)`. */
  function SplitOnce(s: string, c: char): (r: seq<string>)
    ensures 1 <= |r| <= 2
    ensures |r| == 1 <==> c !in s
    ensures |r| == 1 ==> r[0] == s
    ensures |r| == 2 ==> s == r[0] + [c] + r[1] && c !in r[0]
  {
    match IndexOf(s, c)
    case None => [s]
    case Some(i) =>
      assert s == s[..i] + [c] + s[i + 1..];
      [s[..i], s[i + 1..]]
  }

  /** Python `s.split(c, 2)`: at most two cuts, at the first two separators. */
  function SplitMax2(s: string, c: char): (r: seq<string>)
    ensures 1 <= |r| <= 3
    ensures JoinWith(r, [c]) == s
    ensures forall i :: 0 <= i < |r| - 1 ==> c !in r[i]
    ensures |r| < 3 ==> c !in r[|r| - 1]
  {
    var first := SplitOnce(s, c);
    if |first| == 1 then first
    else
      var second := SplitOnce(first[1], c);
      var r := [first[0]] + second;
      assert r[1..] == second;
      assert JoinWith(second, [c]) == first[1] by {
        if |second| == 2 { assert second[1..] == [second[1]]; }
      }
      assert JoinWith(r, [c]) == first[0] + [c] + JoinWith(second, [c]);
      r
  }

  /** End of the leading run of non-space characters. */
  function WordEnd(s: string): (n: nat)
    ensures n <= |s| && (n < |s| ==> IsSpace(s[n]))
    ensures forall i :: 0 <= i < n ==> !IsSpace(s[i])
  {
    if s == [] || IsSpace(s[0]) then 0 else 1 + WordEnd(s[1..])
  }

  /** Python `s.split()[0]`, `None` where Python raises `IndexError` (blank `s`). */
  function FirstWord(s: string): (r: Option<string>)
    ensures r.None? <==> AllSpace(s)
    ensures r.Some? ==> r.value != [] && StartsWith(StripLeft(s), r.value)
    ensures r.Some? ==> forall i :: 0 <= i < |r.value| ==> !IsSpace(r.value[i])
    ensures r.Some? ==> |r.value| == |StripLeft(s)| || IsSpace(StripLeft(s)[|r.value|])
  {
    var t := StripLeft(s);
    if t == [] then
      assert AllSpace(s) by { assert s[..|s|] == s; }
      None
    else
      assert !AllSpace(s) by { assert s[|s| - |t|] == t[0]; }
      Some(t[..WordEnd(t)])
  }
}
