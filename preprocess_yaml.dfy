/**
  `%(name)` placeholder substitution over configuration values
  (bin/preprocess_yaml.py). A placeholder whose name is a known variable is
  replaced by `str()` of the variable's value; inside a dict, the dict's own
  top-level strings and integers, once substituted, become variables for
  the values nested under it.

  The file as written does not parse (a missing `)` at line 30 and a missing
  `:` at line 34); the model follows the evident reading of both lines.
*/
module PreprocessYaml {
  import opened Wrappers
  import Dicts
  import opened Values

  /** The variables a substitution sees: a dict from names to values. */
  type Env = seq<(string, Value)>

  /** The characters `\w` matches, restricted to ASCII. */
  predicate IsWordChar(c: char)
  {
    'a' <= c <= 'z' || 'A' <= c <= 'Z' || '0' <= c <= '9' || c == '_'
  }

  predicate AllWord(s: string)
  {
    forall i :: 0 <= i < |s| ==> IsWordChar(s[i])
  }

  /** The length of the run of word characters `s` starts with. */
  function WordRun(s: string): (n: nat)
    ensures n <= |s| && AllWord(s[..n])
    ensures n < |s| ==> !IsWordChar(s[n])
  {
    if s == [] || !IsWordChar(s[0]) then 0
    else
      var n := 1 + WordRun(s[1..]);
      assert s[..n] == [s[0]] + s[1..][..n - 1];
      n
  }

  /**
    The placeholder `%\((\w+)\)` matches at the start of `s`, if any: its
    name. The greedy `\w+` has to stop right before the `)`.
  */
  function Placeholder(s: string): (r: Option<string>)
    ensures r.Some? ==>
      var n := |r.value|;
      n >= 1 && n + 3 <= |s| && s[..n + 3] == "%(" + r.value + ")" && AllWord(r.value)
  {
    if |s| >= 2 && s[0] == '%' && s[1] == '(' then
      var n := WordRun(s[2..]);
      if n > 0 && n + 2 < |s| && s[n + 2] == ')' then
        assert s[2..][..n] == s[2..n + 2];
        Some(s[2..n + 2])
      else None
    else None
  }

  /** `%(name)` followed by anything is a placeholder for `name`. */
  lemma PlaceholderOf(name: string, rest: string)
    requires name != [] && AllWord(name)
    ensures Placeholder("%(" + name + ")" + rest) == Some(name)
  {
    var s := "%(" + name + ")" + rest;
    assert s[2..] == name + (")" + rest);
    WordRunOf(name, ")" + rest);
    assert s[2..|name| + 2] == name;
  }

  /** A run of word characters ends where a non-word character follows it. */
  lemma {:induction false} WordRunOf(name: string, rest: string)
    requires AllWord(name) && (rest == [] || !IsWordChar(rest[0]))
    ensures WordRun(name + rest) == |name|
    decreases |name|
  {
    if name != [] {
      assert (name + rest)[1..] == name[1..] + rest;
      WordRunOf(name[1..], rest);
    }
  }

  /**
    What `substitute_str` computes, scanning `s` the way `finditer` does:
    at each position either a placeholder matches (and the scan resumes
    after it) or one character is passed over.
  */
  function Substituted(s: string, vars: Env): (r: string)
    ensures vars == [] ==> r == s
    ensures '%' !in s ==> r == s
    decreases |s|
  {
    if s == [] then []
    else
      var (n, value) := Step(s, vars);
      assert '%' !in s ==> '%' !in s[n..] && value.None?;
      (if value.Some? then value.value else s[..n]) + Substituted(s[n..], vars)
  }

  /**
    One step of the scan at the start of `s`: a placeholder for a known
    name is replaced by `str()` of its value, one for an unknown name is
    kept; either way the scan resumes after it. Without a placeholder one
    character is kept. The result is how many characters the step covers
    and the replacement, if any.
  */
  function Step(s: string, vars: Env): (r: (nat, Option<string>))
    requires s != []
    ensures 0 < r.0 <= |s|
    ensures r.1.Some? ==> Placeholder(s).Some?
  {
    match Placeholder(s)
    case Some(name) =>
      (|name| + 3, if name in Dicts.Keys(vars) then Some(Render(Dicts.Get(vars, name).value)) else None)
    case None => (1, None)
  }

  /** `"".join(parts)`. */
  function Join(parts: seq<string>): string
  {
    if parts == [] then [] else Join(parts[..|parts| - 1]) + parts[|parts| - 1]
  }

  /**
    `substitute_str(text, vars)`: every match whose name is a known
    variable is replaced, together with the text since the previous
    replacement; the rest of the text is appended at the end.
  */
  method SubstituteStr(text: string, vars: Env) returns (r: string)
    ensures r == Substituted(text, vars)
  {
    var out: seq<string> := [];
    var i0 := 0;
    var p := 0;
    while p < |text|
      invariant 0 <= i0 <= p <= |text|
      invariant Join(out) + text[i0..p] + Substituted(text[p..], vars) == Substituted(text, vars)
      decreases |text| - p
    {
      var (n, value) := Step(text[p..], vars);
      var end := p + n;
      SliceAt(text, p, n);
      if value.Some? {
        JoinPush(out, text[i0..p], value.value);
        Replaced(Join(out), text, i0, p, end, value.value, Substituted(text[end..], vars));
        out := out + [text[i0..p], value.value];
        i0 := end;
      } else {
        Kept(Join(out), text, i0, p, end, Substituted(text[end..], vars));
      }
      p := end;
    }
    assert text[p..] == [];
    JoinOne(out, text[i0..]);
    out := out + [text[i0..]];
    r := Join(out);
  }

  lemma SliceAt(text: string, p: nat, n: nat)
    requires p + n <= |text|
    ensures text[p..][n..] == text[p + n..] && text[p..][..n] == text[p..p + n]
  {
  }

  /** Text the scan keeps joins the pending, not yet copied, stretch. */
  lemma Kept(done: string, text: string, i0: nat, p: nat, end: nat, rest: string)
    requires i0 <= p <= end <= |text|
    ensures done + text[i0..p] + (text[p..end] + rest) == done + text[i0..end] + rest
  {
    assert text[i0..end] == text[i0..p] + text[p..end];
  }

  /** A replacement flushes the pending stretch and the value; nothing is pending after it. */
  lemma Replaced(done: string, text: string, i0: nat, p: nat, end: nat, value: string, rest: string)
    requires i0 <= p <= end <= |text|
    ensures done + text[i0..p] + value + text[end..end] + rest == done + text[i0..p] + (value + rest)
  {
    assert text[end..end] == [];
  }

  lemma JoinPush(parts: seq<string>, a: string, b: string)
    ensures Join(parts + [a, b]) == Join(parts) + a + b
  {
    assert (parts + [a, b])[..|parts| + 1] == parts + [a];
    assert (parts + [a])[..|parts|] == parts;
  }

  lemma JoinOne(parts: seq<string>, a: string)
    ensures Join(parts + [a]) == Join(parts) + a
  {
    assert (parts + [a])[..|parts|] == parts;
  }

  /** A text in which no placeholder names a known variable comes back unchanged. */
  lemma {:induction false} UnknownNamesKept(s: string, vars: Env)
    requires forall i :: 0 <= i <= |s| && Placeholder(s[i..]).Some? ==> Placeholder(s[i..]).value !in Dicts.Keys(vars)
    ensures Substituted(s, vars) == s
    decreases |s|
  {
    if s != [] {
      var n := match Placeholder(s) case Some(name) => |name| + 3 case None => 1;
      assert s[0..] == s;
      forall i | 0 <= i <= |s[n..]| && Placeholder(s[n..][i..]).Some?
        ensures Placeholder(s[n..][i..]).value !in Dicts.Keys(vars)
      {
        assert s[n..][i..] == s[n + i..];
      }
      UnknownNamesKept(s[n..], vars);
      assert s == s[..n] + s[n..];
    }
  }

  /** A text with no placeholder at all comes back unchanged, whatever the variables. */
  lemma NoPlaceholderUnchanged(s: string, vars: Env)
    requires forall i :: 0 <= i <= |s| ==> Placeholder(s[i..]).None?
    ensures Substituted(s, vars) == s
  {
    UnknownNamesKept(s, vars);
  }

  /** A placeholder naming a known variable becomes `str()` of its value, and the scan goes on after it. */
  lemma KnownReplaced(name: string, rest: string, vars: Env)
    requires name != [] && AllWord(name) && name in Dicts.Keys(vars)
    ensures Substituted("%(" + name + ")" + rest, vars) == Render(Dicts.Get(vars, name).value) + Substituted(rest, vars)
  {
    var s := "%(" + name + ")" + rest;
    PlaceholderOf(name, rest);
    assert s[|name| + 3..] == rest;
  }

  /** A placeholder naming an unknown variable is kept verbatim, and the scan goes on after it. */
  lemma UnknownKept(name: string, rest: string, vars: Env)
    requires name != [] && AllWord(name) && name !in Dicts.Keys(vars)
    ensures Substituted("%(" + name + ")" + rest, vars) == "%(" + name + ")" + Substituted(rest, vars)
  {
    var s := "%(" + name + ")" + rest;
    PlaceholderOf(name, rest);
    assert s[|name| + 3..] == rest;
    assert s[..|name| + 3] == "%(" + name + ")";
  }

  /** Text without `%` is copied as it is, ahead of whatever the rest becomes. */
  lemma {:induction false} PlainTextKept(a: string, rest: string, vars: Env)
    requires '%' !in a
    ensures Substituted(a + rest, vars) == a + Substituted(rest, vars)
    decreases |a|
  {
    if a == [] {
      assert a + rest == rest;
    } else {
      var s := a + rest;
      assert s[0] == a[0] && a[0] in a;
      assert s[1..] == a[1..] + rest;
      ScanPlain(s, vars);
      PlainTextKept(a[1..], rest, vars);
      FirstRegroup(a, Substituted(rest, vars));
    }
  }

  lemma FirstRegroup(a: string, x: string)
    requires a != []
    ensures [a[0]] + (a[1..] + x) == a + x
  {
    assert a == [a[0]] + a[1..];
  }

  /** A text that does not start with `%` has its first character copied. */
  lemma ScanPlain(s: string, vars: Env)
    requires s != [] && s[0] != '%'
    ensures Substituted(s, vars) == [s[0]] + Substituted(s[1..], vars)
  {
    assert Step(s, vars) == (1, None);
    assert s[..1] == [s[0]];
  }

  /** The values `isinstance(v, (str, int))` accepts; a Python `bool` is an `int`. */
  predicate IsScalar(v: Value)
  {
    v.Str? || v.Int? || v.Bool?
  }

  /**
    A top-level scalar of a dict once substituted: a string has its
    placeholders replaced, an integer is kept as it is.
  */
  function SubstScalar(v: Value, outer: Env): (r: Value)
    ensures IsScalar(v) ==> IsScalar(r) && (v.Str? <==> r.Str?)
    ensures !v.Str? ==> r == v
  {
    if v.Str? then Str(Substituted(v.s, outer)) else v
  }

  /** `{k: substitute_str(v, outer) for k, v in d.items() if isinstance(v, (str, int))}`, with integers kept. */
  function Scalars(d: Env, outer: Env): (r: Env)
    ensures forall k :: k in Dicts.Keys(r) ==> k in Dicts.Keys(d)
  {
    if d == [] then []
    else
      var rest := Scalars(d[1..], outer);
      assert Dicts.Keys(d) == [d[0].0] + Dicts.Keys(d[1..]);
      if IsScalar(d[0].1) then [(d[0].0, SubstScalar(d[0].1, outer))] + rest else rest
  }

  /**
    The first comprehension as written: `substitute_str` is handed an
    integer as well, where `finditer` raises `TypeError` (`None`).
  */
  function ScalarsAsWritten(d: Env, outer: Env): (r: Option<Env>)
    ensures r.None? <==> exists i :: 0 <= i < |d| && IsScalar(d[i].1) && !d[i].1.Str?
    ensures r.Some? ==> r.value == Scalars(d, outer)
  {
    if d == [] then Some([])
    else
      var rest := ScalarsAsWritten(d[1..], outer);
      assert forall i :: 1 <= i < |d| ==> d[i] == d[1..][i - 1];
      if d[0].1.Str? then
        if rest.Some? then Some([(d[0].0, Str(Substituted(d[0].1.s, outer)))] + rest.value) else None
      else if IsScalar(d[0].1) then None
      else rest
  }

  /** A dict's top-level integer is enough for the comprehension as written to raise. */
  lemma IntEntryRaises()
    ensures ScalarsAsWritten([("port", Int(8080))], []) == None
    ensures Scalars([("port", Int(8080))], []) == [("port", Int(8080))]
  {
    assert IsScalar(Int(8080)) && !Int(8080).Str?;
  }

  /** The variables the values nested in `d` are substituted with: `outer` overlaid with `d`'s substituted scalars. */
  function Vars(d: Env, outer: Env): Env
  {
    Dicts.Update(outer, Scalars(d, outer))
  }

  /**
    `substitute_in(item, vars)`: strings, dicts and lists are substituted,
    anything else comes back as it is. A string stays a string, a list keeps
    its length and a dict its keys.
  */
  function SubstituteIn(item: Value, vars: Env): (r: Value)
    ensures !(item.Str? || item.List? || item.Dict?) ==> r == item
    ensures item.Str? ==> r.Str?
    ensures item.List? ==> r.List? && |r.items| == |item.items|
    ensures item.Dict? ==> r.Dict? && forall k :: k in Dicts.Keys(r.entries) <==> k in Dicts.Keys(item.entries)
    decreases item, 1
  {
    match item
    case Str(s) => Str(Substituted(s, vars))
    case Dict(entries) => Dict(SubstituteDict(entries, vars))
    case List(items) => List(SubstituteList(items, vars))
    case _ => item
  }

  /** `substitute_list(lst, vars)`. */
  function SubstituteList(lst: seq<Value>, vars: Env): (r: seq<Value>)
    ensures |r| == |lst|
    decreases List(lst), 0
  {
    seq(|lst|, i requires 0 <= i < |lst| => SubstituteIn(lst[i], vars))
  }

  /**
    `substitute_dict(d, outer)`: the substituted scalars first, then every
    entry of `d` substituted with `Vars(d, outer)`, assigned in `d`'s order.
  */
  function SubstituteDict(d: Env, outer: Env): (r: Env)
    ensures forall k :: k in Dicts.Keys(r) <==> k in Dicts.Keys(d)
    decreases Dict(d), 0
  {
    var vars := Vars(d, outer);
    var nested := seq(|d|, i requires 0 <= i < |d| => (d[i].0, SubstituteIn(d[i].1, vars)));
    assert Dicts.Keys(nested) == Dicts.Keys(d);
    Dicts.Update(Scalars(d, outer), nested)
  }

  /** `preprocess(s, vars)`. */
  function Preprocess(s: Value, vars: Env): (r: Value)
    ensures !(s.Str? || s.List? || s.Dict?) ==> r == s
  {
    SubstituteIn(s, vars)
  }

  /** Substituting a list is substituting each of its parts, in order. */
  lemma SubstituteListAppend(a: seq<Value>, b: seq<Value>, vars: Env)
    ensures SubstituteList(a + b, vars) == SubstituteList(a, vars) + SubstituteList(b, vars)
  {
    var l, r := SubstituteList(a + b, vars), SubstituteList(a, vars) + SubstituteList(b, vars);
    forall i | 0 <= i < |a + b| ensures l[i] == r[i] {
      if i >= |a| {
        assert (a + b)[i] == b[i - |a|];
      }
    }
  }

  /** Each item of a substituted list is its original item substituted. */
  lemma SubstituteListAt(lst: seq<Value>, vars: Env, i: nat)
    requires i < |lst|
    ensures SubstituteList(lst, vars)[i] == SubstituteIn(lst[i], vars)
    ensures !(lst[i].Str? || lst[i].List? || lst[i].Dict?) ==> SubstituteList(lst, vars)[i] == lst[i]
  {
  }

  /** In a dict with distinct keys, the substituted scalars are its scalar entries, each substituted, and nothing else. */
  lemma {:induction false} ScalarsGet(d: Env, outer: Env, k: string)
    requires Dicts.DistinctKeys(d)
    ensures Dicts.DistinctKeys(Scalars(d, outer))
    ensures Dicts.Get(Scalars(d, outer), k) ==
      match Dicts.Get(d, k)
      case Some(v) => if IsScalar(v) then Some(SubstScalar(v, outer)) else None
      case None => None
  {
    if d != [] {
      var rest := Scalars(d[1..], outer);
      DistinctTail(d);
      ScalarsGet(d[1..], outer, k);
      Dicts.HeadKeyUnique(d);
      if IsScalar(d[0].1) {
        var x := (d[0].0, SubstScalar(d[0].1, outer));
        ConsDistinct(x, rest);
        assert ([x] + rest)[1..] == rest;
      }
    }
  }

  lemma DistinctTail(d: Env)
    requires Dicts.DistinctKeys(d) && d != []
    ensures Dicts.DistinctKeys(d[1..])
  {
    forall i, j | 0 <= i < j < |d[1..]| ensures d[1..][i].0 != d[1..][j].0 {
      assert d[1..][i] == d[i + 1] && d[1..][j] == d[j + 1];
    }
  }

  lemma ConsDistinct(x: (string, Value), rest: Env)
    requires Dicts.DistinctKeys(rest) && x.0 !in Dicts.Keys(rest)
    ensures Dicts.DistinctKeys([x] + rest)
  {
    var r := [x] + rest;
    forall i, j | 0 <= i < j < |r| ensures r[i].0 != r[j].0 {
      assert r[j] == rest[j - 1];
      if i == 0 {
        assert Dicts.Keys(rest)[j - 1] == rest[j - 1].0;
      } else {
        assert r[i] == rest[i - 1];
      }
    }
  }

  /** A variable seen by the nested values is `d`'s substituted scalar of that name if there is one, else the outer one. */
  lemma VarsGet(d: Env, outer: Env, k: string)
    requires Dicts.DistinctKeys(d)
    ensures Dicts.Get(Vars(d, outer), k) ==
      match Dicts.Get(d, k)
      case Some(v) => if IsScalar(v) then Some(SubstScalar(v, outer)) else Dicts.Get(outer, k)
      case None => Dicts.Get(outer, k)
  {
    ScalarsGet(d, outer, k);
    Dicts.UpdateGet(outer, Scalars(d, outer), k);
  }

  /** `Get` through values changed one by one: the same keys, each value changed. */
  lemma {:induction false} GetMapped(d: Env, nested: Env, f: Value -> Value, k: string)
    requires |nested| == |d| && forall i :: 0 <= i < |d| ==> nested[i] == (d[i].0, f(d[i].1))
    ensures Dicts.Get(nested, k) == match Dicts.Get(d, k) case Some(v) => Some(f(v)) case None => None
  {
    if d != [] && d[0].0 != k {
      GetMapped(d[1..], nested[1..], f, k);
    }
  }

  /**
    The substituted dict has exactly `d`'s keys, and each holds its original
    value substituted with `outer` overlaid by `d`'s substituted scalars.
  */
  lemma SubstituteDictGet(d: Env, outer: Env, k: string)
    requires Dicts.DistinctKeys(d)
    ensures Dicts.Get(SubstituteDict(d, outer), k) ==
      match Dicts.Get(d, k)
      case Some(v) => Some(SubstituteIn(v, Vars(d, outer)))
      case None => None
  {
    var vars := Vars(d, outer);
    var nested := seq(|d|, i requires 0 <= i < |d| => (d[i].0, SubstituteIn(d[i].1, vars)));
    assert Dicts.Keys(nested) == Dicts.Keys(d);
    assert Dicts.DistinctKeys(nested) by {
      forall i, j | 0 <= i < j < |nested| ensures nested[i].0 != nested[j].0 {
        assert nested[i].0 == d[i].0 && nested[j].0 == d[j].0;
      }
    }
    Dicts.UpdateGet(Scalars(d, outer), nested, k);
    GetMapped(d, nested, v => SubstituteIn(v, vars), k);
    ScalarsGet(d, outer, k);
  }

  /**
    With integers kept, a dict's top-level integer survives substitution
    and is a variable for the values nested under it.
  */
  lemma IntEntryKept(d: Env, outer: Env, k: string, v: Value)
    requires Dicts.DistinctKeys(d) && Dicts.Get(d, k) == Some(v) && IsScalar(v) && !v.Str?
    ensures Dicts.Get(SubstituteDict(d, outer), k) == Some(v)
    ensures Dicts.Get(Vars(d, outer), k) == Some(v)
  {
    SubstituteDictGet(d, outer, k);
    VarsGet(d, outer, k);
  }
}
