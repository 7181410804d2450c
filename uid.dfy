/**
  Request identifiers (webpie/uid.py): a wrap-around counter that hands out
  integer ids, or labels made of three random letters and the id's last six
  decimal digits, optionally tagged.

  The random letters are an input of `Get`; the module-level generator
  `_uid` is the `Current` field of a `Generator` object.
*/
module Uid {
  import opened Wrappers
  import opened Decimal
  import Text

  /** `self.Range`: the counter wraps around at one million. */
  const Range: nat := 1000000

  /** The letters `random.choice` draws from: `ascii_lowercase + ascii_uppercase`. */
  predicate IsLetter(c: char)
  {
    'a' <= c <= 'z' || 'A' <= c <= 'Z'
  }

  predicate Letters(s: string)
  {
    |s| == 3 && forall i :: 0 <= i < |s| ==> IsLetter(s[i])
  }

  /** What `get` returns: the integer id, or its string label. */
  datatype Id = IntId(i: int) | StrId(s: string)

  /** The counter after one `get`: one more, modulo `Range`, whatever it started at. */
  function Advance(next: int): (r: int)
    ensures 0 <= r < Range
    ensures 0 <= next < Range - 1 ==> r == next + 1
    ensures next == Range - 1 ==> r == 0
  {
    (next + 1) % Range
  }

  /** The integer id of counter value `next`. */
  function IdOf(next: int, multiplier: int, offset: int): int
  {
    next * multiplier + offset
  }

  /** `"%s%s%s.%03d" % (a1, a2, a3, u % 1000000)`, behind `tag + "."` when the tag is non-empty. */
  function Label(tag: string, letters: string, u: int): (r: string)
    ensures |r| == (if tag == [] then 0 else |tag| + 1) + |letters| + 1 + |Format03(u % Range)|
    ensures |r| >= |letters| + 4
  {
    (if tag == [] then "" else tag + ".") + letters + "." + Format03(u % Range)
  }

  /**
    A label ends with the three letters, a dot and at least three digits
    that read back as `u % 1000000`; it starts with the tag and a dot when
    there is a tag, and is nothing more otherwise.
  */
  lemma LabelShape(tag: string, letters: string, u: int)
    requires Letters(letters)
    ensures var r, d := Label(tag, letters, u), Format03(u % Range);
      && |d| >= 3 && |r| == (if tag == [] then 0 else |tag| + 1) + 4 + |d|
      && r[|r| - |d|..] == d && ParseNat(d) == Some(u % Range)
      && r[|r| - |d| - 1] == '.'
      && r[|r| - |d| - 4..|r| - |d| - 1] == letters
      && (tag != [] ==> r[..|tag|] == tag && r[|tag|] == '.')
  {
    Format03RoundTrip(u % Range);
    var r, d := Label(tag, letters, u), Format03(u % Range);
    var pre := if tag == [] then "" else tag + ".";
    assert r == pre + letters + "." + d;
    LabelPieces(pre, letters, d);
    assert tag != [] ==> pre[..|tag|] == tag && pre[|tag|] == '.';
  }

  /** Where the pieces of `pre + letters + "." + d` sit, counted from either end. */
  lemma LabelPieces(pre: string, letters: string, d: string)
    requires |letters| == 3
    ensures var r := pre + letters + "." + d;
      && |r| == |pre| + 4 + |d| && r[|r| - |d|..] == d && r[|r| - |d| - 1] == '.'
      && r[|r| - |d| - 4..|r| - |d| - 1] == letters && r[..|pre|] == pre
  {
    var r := pre + letters + "." + d;
    assert r == pre + letters + ("." + d);
    Text.SliceInside(pre, letters, "." + d);
    assert r[|pre| + 3..] == "." + d;
    assert r[..|pre|] == pre;
  }

  lemma LabelParts(tag: string, letters: string, digits: string, u: int)
    requires digits == Format03(u % Range)
    ensures tag == [] ==> Label(tag, letters, u) == letters + "." + digits
    ensures tag != [] ==> Label(tag, letters, u) == tag + "." + (letters + "." + digits)
  {
    if tag == [] {
      assert Label(tag, letters, u) == "" + letters + "." + digits;
      assert "" + (letters + "." + digits) == letters + "." + digits;
    } else {
      assert Label(tag, letters, u) == tag + "." + letters + "." + digits;
      Text.Regroup(tag + ".", letters + ".", digits);
      Text.Regroup(tag + ".", letters, ".");
    }
  }

  /** The counter after `k` calls of `get`, starting from `next`. */
  function After(next: int, k: nat): int
  {
    if k == 0 then next else Advance(After(next, k - 1))
  }

  /** After `k >= 1` calls the counter is `next + k` modulo `Range`. */
  lemma {:induction false} AfterWraps(next: int, k: nat)
    requires k >= 1
    ensures After(next, k) == (next + k) % Range
  {
    if k > 1 {
      AfterWraps(next, k - 1);
      ModSucc(next + k - 1);
    }
  }

  lemma ModSucc(a: int)
    ensures (a % Range + 1) % Range == (a + 1) % Range
  {
    var q := a / Range;
    assert a == q * Range + a % Range;
    assert a + 1 == q * Range + (a % Range + 1);
    ModShift(a % Range + 1, q);
  }

  /** Adding whole turns of the counter does not change the remainder. */
  lemma ModShift(x: int, q: int)
    ensures (q * Range + x) % Range == x % Range
  {
    var y := q * Range + x;
    assert y == (q + x / Range) * Range + x % Range;
    var p := y / Range - q - x / Range;
    assert p * Range == x % Range - y % Range;
    SmallMultiple(p);
  }

  /** A multiple of `Range` strictly between `-Range` and `Range` is zero. */
  lemma SmallMultiple(p: int)
    requires -(Range as int) < p * Range < Range
    ensures p == 0
  {
  }

  /** Fewer than `Range` calls apart, the counter differs. */
  lemma CounterDistinct(next: int, i: nat, j: nat)
    requires 1 <= i < j < i + Range
    ensures After(next, i) != After(next, j)
  {
    AfterWraps(next, i);
    AfterWraps(next, j);
    var a, b := next + i, next + j;
    assert a == (a / Range) * Range + a % Range;
    assert b == (b / Range) * Range + b % Range;
    if a % Range == b % Range {
      assert (b / Range - a / Range) * Range == b - a;
      SmallMultiple(b / Range - a / Range);
    }
  }

  /** With a non-zero multiplier, any `Range` consecutive integer ids are pairwise distinct. */
  lemma IdsDistinct(next: int, multiplier: int, offset: int, i: nat, j: nat)
    requires multiplier != 0 && 1 <= i < j < i + Range
    ensures IdOf(After(next, i), multiplier, offset) != IdOf(After(next, j), multiplier, offset)
  {
    CounterDistinct(next, i, j);
    var a, b := After(next, i), After(next, j);
    ProductNonZero(a - b, multiplier);
    assert a * multiplier - b * multiplier == (a - b) * multiplier;
  }

  lemma ProductNonZero(x: int, m: int)
    requires x != 0 && m != 0
    ensures x * m != 0
  {
  }

  /** The default generator (start 1, multiplier 1, offset 0) hands out 2 first. */
  lemma FirstIdIsTwo()
    ensures IdOf(After(1, 1), 1, 0) == 2
  {
  }

  /** `_UIDGen`. */
  class UIDGen {
    var Next: int
    const Tag: string
    const Offset: int
    const Multiplier: int

    constructor(start: int, multiplier: int, offset: int, tag: string)
      ensures Next == start && Multiplier == multiplier && Offset == offset && Tag == tag
    {
      Next, Multiplier, Offset, Tag := start, multiplier, offset, tag;
    }

    /**
      `get(as_int)`, with `letters` the three random letters: the counter
      advances first, and the id is made from its new value.
    */
    method Get(asInt: bool, letters: string) returns (u: Id)
      requires Letters(letters)
      modifies this
      ensures Next == Advance(old(Next))
      ensures asInt ==> u == IntId(IdOf(Next, Multiplier, Offset))
      ensures !asInt ==> u == StrId(Label(Tag, letters, IdOf(Next, Multiplier, Offset)))
    {
      Next := (Next + 1) % Range;
      var n := IdOf(Next, Multiplier, Offset);
      if asInt {
        u := IntId(n);
      } else {
        var digits := Format03(n % Range);
        var s := letters + "." + digits;
        if Tag != [] {
          s := Tag + "." + s;
        }
        LabelParts(Tag, letters, digits, n);
        u := StrId(s);
      }
    }
  }

  /** The module-level generator `_uid`, with `uid` and `init`. */
  class Generator {
    var Current: UIDGen

    /** `_uid = _UIDGen()`. */
    constructor()
      ensures fresh(Current)
      ensures Current.Next == 1 && Current.Multiplier == 1 && Current.Offset == 0 && Current.Tag == ""
    {
      Current := new UIDGen(1, 1, 0, "");
    }

    /**
      `uid(u, as_int)`: a given id is returned as it is and the counter is
      left alone; otherwise the current generator hands out the next id.
      The `tag` argument of `uid` is not used by the source and is not a
      parameter here.
    */
    method GetUid(u: Option<Id>, asInt: bool, letters: string) returns (r: Id)
      requires Letters(letters)
      modifies Current
      ensures u.Some? ==> r == u.value && Current.Next == old(Current.Next)
      ensures u.None? ==> Current.Next == Advance(old(Current.Next))
      ensures u.None? && asInt ==> r == IntId(IdOf(Current.Next, Current.Multiplier, Current.Offset))
      ensures u.None? && !asInt ==> r == StrId(Label(Current.Tag, letters, IdOf(Current.Next, Current.Multiplier, Current.Offset)))
    {
      if u.Some? {
        return u.value;
      }
      r := Current.Get(asInt, letters);
    }

    /** `init(...)`: a new generator replaces the current one. */
    method Init(multiplier: int, tag: string, offset: int, start: int)
      modifies this
      ensures fresh(Current)
      ensures Current.Next == start && Current.Multiplier == multiplier && Current.Offset == offset && Current.Tag == tag
    {
      Current := new UIDGen(start, multiplier, offset, tag);
    }
  }
}
