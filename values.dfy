/**
  Configuration values as the YAML loader hands them over: `None`, booleans,
  integers, strings, lists and string-keyed dicts, with Python's truth test
  and Python's `str()`.
*/
module Values {
  import opened Wrappers
  import Dicts
  import Text
  import Decimal

  datatype Value =
    | Null
    | Bool(b: bool)
    | Int(i: int)
    | Str(s: string)
    | List(items: seq<Value>)
    | Dict(entries: seq<(string, Value)>)

  /** Python's truth test (`if v:`). */
  predicate Truthy(v: Value): (t: bool)
    ensures !t <==> v == Null || v == Bool(false) || v == Int(0) || v == Str("") || v == List([]) || v == Dict([])
  {
    match v
    case Null => false
    case Bool(b) => b
    case Int(i) => i != 0
    case Str(s) => s != ""
    case List(items) => items != []
    case Dict(entries) => entries != []
  }

  /** Python `d.get(k)` on a dict value; any other value has no keys. */
  function GetKey(v: Value, k: string): (r: Option<Value>)
    ensures r.Some? ==> v.Dict? && k in Dicts.Keys(v.entries)
  {
    if v.Dict? then Dicts.Get(v.entries, k) else None
  }

  /** Python `d.get(k, default)` on a dict value. */
  function Lookup(v: Value, k: string, default: Value): (r: Value)
    ensures HasKey(v, k) ==> Some(r) == GetKey(v, k)
    ensures !HasKey(v, k) ==> r == default
  {
    GetKey(v, k).GetOr(default)
  }

  /** Python `k in d` on a dict value. */
  predicate HasKey(v: Value, k: string)
  {
    v.Dict? && k in Dicts.Keys(v.entries)
  }

  /** Python `repr(v)`; quotes inside strings are not escaped. */
  function Repr(v: Value): (r: string)
    ensures r != ""
  {
    match v
    case Null => "None"
    case Bool(b) => if b then "True" else "False"
    case Int(i) => Decimal.IntToString(i)
    case Str(s) => "'" + s + "'"
    case List(items) =>
      "[" + Text.JoinWith(seq(|items|, k requires 0 <= k < |items| => Repr(items[k])), ", ") + "]"
    case Dict(entries) =>
      "{" + Text.JoinWith(seq(|entries|, k requires 0 <= k < |entries| =>
                            "'" + entries[k].0 + "': " + Repr(entries[k].1)), ", ") + "}"
  }

  /** Python `str(v)`: a string is itself, anything else its `repr`. */
  function Render(v: Value): (r: string)
    ensures v.Str? ==> r == v.s
    ensures v.Int? ==> Decimal.ParseInt(r) == Some(v.i)
    ensures !v.Str? ==> r != ""
  {
    if v.Str? then v.s
    else if v.Int? then Decimal.IntRoundTrip(v.i); Repr(v)
    else Repr(v)
  }
}
