/**
  Routing in the old threaded server (webpie/old/HTTPServer2.py): a servlet's
  URI matcher and rewriter, its query-string parser, the mapping of request
  headers to WSGI environment entries, its bounded request queue, the
  dispatcher that hands each request to the first servlet that accepts it,
  and the reader that decides which connections reach the dispatcher.

  Defect of the source, noted here: `match_uri` computes the regex match but
  does not return it (line 303), so a servlet configured with `match`
  answers `None`, which the dispatcher treats as no match.
*/
module Servlets {
  import opened Wrappers
  import Text
  import Decimal
  import Dicts
  import opened HttpHeader
  import opened HttpServer

  // ---------------------------------------------------------------------------
  // Matching and rewriting URIs

  /**
    The routing part of a servlet's configuration: a regex (`match`) with its
    replacement (`rewrite`), or a `prefix` with its `replace_prefix`.
  */
  datatype Route = Route(matchRE: Option<string>, rewrite: Option<string>, prefix: Option<string>, replacePrefix: Option<string>)

  /** `__init__` asserts that a servlet has no regex when it has a prefix. */
  predicate ValidRoute(r: Route)
  {
    r.prefix.None? || r.matchRE.None?
  }

  /**
    `match_uri(uri)`. The regex branch computes the match and drops it, so a
    regex route answers `None`; a prefix route answers whether the URI starts
    with the prefix; a route with neither accepts everything.
  */
  function MatchUri(r: Route, uri: string): (m: Option<bool>)
    ensures m.None? <==> r.matchRE.Some?
    ensures m == Some(true) <==> r.matchRE.None? && (r.prefix.Some? ==> exists tail :: uri == r.prefix.value + tail)
  {
    if r.matchRE.Some? then None
    else if r.prefix.Some? then
      var p := r.prefix.value;
      assert Text.StartsWith(uri, p) ==> uri == p + uri[|p|..];
      Some(Text.StartsWith(uri, p))
    else Some(true)
  }

  /** Python's truth test on the answer of `match_uri`. */
  predicate Accepts(r: Route, uri: string)
  {
    MatchUri(r, uri) == Some(true)
  }

  /** `re.sub(pattern, replacement, text)`; the regex engine is not part of this model. */
  type RegexSub = (string, string, string) -> string

  /** Python `s[n:]`: empty when `n` is past the end. */
  function Drop(s: string, n: nat): (r: string)
    ensures n <= |s| ==> s == s[..n] + r
    ensures n >= |s| ==> r == []
  {
    if n <= |s| then s[n..] else []
  }

  /**
    `rewrite_uri(uri)`: the regex substitution when a regex and a rewrite are
    configured, else the prefix cut off and `replace_prefix` put in its place
    when both are configured, else the URI unchanged.
  */
  function RewriteUri(r: Route, uri: string, sub: RegexSub): (u: string)
    ensures r.matchRE.Some? && r.rewrite.Some? ==> u == sub(r.matchRE.value, r.rewrite.value, uri)
    ensures !(r.matchRE.Some? && r.rewrite.Some?) && r.prefix.Some? && r.replacePrefix.Some? ==>
      && Text.StartsWith(u, r.replacePrefix.value)
      && (Text.StartsWith(uri, r.prefix.value) ==> u[|r.replacePrefix.value|..] == uri[|r.prefix.value|..])
      && (|uri| <= |r.prefix.value| ==> u == r.replacePrefix.value)
    ensures !(r.matchRE.Some? && r.rewrite.Some?) && !(r.prefix.Some? && r.replacePrefix.Some?) ==> u == uri
  {
    if r.matchRE.Some? && r.rewrite.Some? then sub(r.matchRE.value, r.rewrite.value, uri)
    else if r.prefix.Some? && r.replacePrefix.Some? then r.replacePrefix.value + Drop(uri, |r.prefix.value|)
    else uri
  }

  /**
    On a URI the route accepts: with a prefix and a replacement the prefix is
    swapped for the replacement and the rest of the URI kept; without a
    replacement the URI is unchanged.
  */
  lemma RewriteAccepted(r: Route, uri: string, sub: RegexSub)
    requires Accepts(r, uri)
    ensures r.prefix.Some? && r.replacePrefix.Some? ==>
      exists tail :: uri == r.prefix.value + tail && RewriteUri(r, uri, sub) == r.replacePrefix.value + tail
    ensures r.replacePrefix.None? ==> RewriteUri(r, uri, sub) == uri
  {
    if r.prefix.Some? && r.replacePrefix.Some? {
      var tail := Drop(uri, |r.prefix.value|);
      assert uri == r.prefix.value + tail;
    }
  }

  /** Rewriting prefix `p` to `q` and then `q` back to `p` restores every URI that starts with `p`. */
  lemma RewriteInverse(p: string, q: string, uri: string, sub: RegexSub)
    requires Text.StartsWith(uri, p)
    ensures var there := Route(None, None, Some(p), Some(q));
      var back := Route(None, None, Some(q), Some(p));
      var u := RewriteUri(there, uri, sub);
      Accepts(back, u) && RewriteUri(back, u, sub) == uri
  {
    var tail := uri[|p|..];
    assert uri == p + tail;
    var u := q + tail;
    assert u[..|q|] == q && u[|q|..] == tail;
  }

  // ---------------------------------------------------------------------------
  // The query string

  /** A `query_dict` value: a single value, or the list of values of a repeated key. */
  datatype QueryValue = Scalar(v: Option<string>) | Listed(vs: seq<Option<string>>)

  /**
    One `&`-separated piece as `parseQuery` reads it: the key before the first
    `=` and the value after it (`None` without `=`); nothing for an empty
    piece or an empty key.
  */
  function QueryEntry(w: string): (e: Option<(string, Option<string>)>)
    ensures e.None? <==> w == "" || w[0] == '='
    ensures e.Some? ==> e.value.0 != "" && '=' !in e.value.0
    ensures e.Some? ==> w == e.value.0 + (if e.value.1.Some? then "=" + e.value.1.value else "")
  {
    if w == "" then None
    else
      var words := Text.SplitOnce(w, '=');
      if words[0] == "" then None
      else Some((words[0], if |words| > 1 then Some(words[1]) else None))
  }

  /** Reading `k=v` or a bare `k` back gives the key and value written. */
  lemma QueryEntryRoundTrip(k: string, v: Option<string>)
    requires k != "" && '=' !in k
    ensures QueryEntry(k + (if v.Some? then "=" + v.value else "")) == Some((k, v))
  {
    if v.Some? {
      SplitOnceAt(k, '=', v.value);
      assert k + ("=" + v.value) == k + ['='] + v.value;
    } else {
      assert k + "" == k;
      assert Text.SplitOnce(k, '=') == [k];
    }
  }

  /** `(a + c + b).split(c, 1)` cuts at the `c` after `a` when `a` holds none. */
  lemma SplitOnceAt(a: string, c: char, b: string)
    requires c !in a
    ensures Text.SplitOnce(a + [c] + b, c) == [a, b]
  {
    var s := a + [c] + b;
    assert s[|a|] == c;
    assert forall j :: 0 <= j < |a| ==> s[j] == a[j];
    var r := Text.SplitOnce(s, c);
    assert |r[0]| == |a|;
    assert r[0] == s[..|a|] == a;
    assert s[|a| + 1..] == b;
  }

  /** What a key maps to after one more value: the value alone, or the values so far as a list. */
  function Appended(prior: Option<QueryValue>, v: Option<string>): QueryValue
  {
    match prior
    case None => Scalar(v)
    case Some(Scalar(x)) => Listed([x, v])
    case Some(Listed(xs)) => Listed(xs + [v])
  }

  /** One turn of the loop of `parseQuery`: a repeated key turns its value into a list and appends. */
  function QueryAdd(out: seq<(string, QueryValue)>, w: string): seq<(string, QueryValue)>
  {
    match QueryEntry(w)
    case None => out
    case Some((k, v)) => Dicts.Put(out, k, Appended(Dicts.Get(out, k), v))
  }

  /** The dict `parseQuery` has built after the pieces `ws`. */
  function QueryFold(ws: seq<string>): (d: seq<(string, QueryValue)>)
    ensures |d| <= |ws|
    ensures forall k :: k in Dicts.Keys(d) ==> ValuesFor(ws, k) != []
  {
    if ws == [] then [] else QueryAdd(QueryFold(ws[..|ws| - 1]), ws[|ws| - 1])
  }

  /** The values given to key `k` by the pieces `ws`, in order. */
  function ValuesFor(ws: seq<string>, k: string): seq<Option<string>>
  {
    if ws == [] then []
    else
      var e := QueryEntry(ws[|ws| - 1]);
      ValuesFor(ws[..|ws| - 1], k) + (if e.Some? && e.value.0 == k then [e.value.1] else [])
  }

  /** A key given once maps to its value; a key given more than once to the list of its values. */
  function Collect(vs: seq<Option<string>>): QueryValue
    requires vs != []
  {
    if |vs| == 1 then Scalar(vs[0]) else Listed(vs)
  }

  /** What key `k` should map to after the pieces `ws`: absent when no piece names it. */
  function Expected(ws: seq<string>, k: string): Option<QueryValue>
  {
    var vs := ValuesFor(ws, k);
    if vs == [] then None else Some(Collect(vs))
  }

  /**
    What `parseQuery` makes of a key: absent when no piece names it, else
    every value given to it, in order, collected as above; keys are distinct.
  */
  lemma {:induction false} QueryFoldGet(ws: seq<string>, k: string)
    ensures Dicts.DistinctKeys(QueryFold(ws))
    ensures Dicts.Get(QueryFold(ws), k) == Expected(ws, k)
  {
    if ws != [] {
      var init := ws[..|ws| - 1];
      var w := ws[|ws| - 1];
      var d := QueryFold(init);
      QueryFoldGet(init, k);
      assert QueryFold(ws) == QueryAdd(d, w);
      var e := QueryEntry(w);
      if e.Some? {
        var (k', v) := e.value;
        QueryFoldGet(init, k');
        Dicts.PutDistinct(d, k', Appended(Dicts.Get(d, k'), v));
        if k' == k {
          assert ValuesFor(ws, k) == ValuesFor(init, k) + [v];
          AppendedCollect(ValuesFor(init, k), v);
        } else {
          assert ValuesFor(ws, k) == ValuesFor(init, k);
        }
      } else {
        assert ValuesFor(ws, k) == ValuesFor(init, k);
      }
    }
  }

  /** One more value for a key turns what it had into what all its values collect to. */
  lemma AppendedCollect(vs: seq<Option<string>>, v: Option<string>)
    ensures Appended(if vs == [] then None else Some(Collect(vs)), v) == Collect(vs + [v])
  {
    if |vs| == 1 {
      assert vs + [v] == [vs[0], v];
    }
  }

  /** The empty key never gets a value: empty pieces and pieces starting with `=` are skipped. */
  lemma {:induction false} NoEmptyKey(ws: seq<string>)
    ensures Dicts.Get(QueryFold(ws), "") == None
  {
    QueryFoldGet(ws, "");
    EmptyKeyHasNoValues(ws);
  }

  lemma {:induction false} EmptyKeyHasNoValues(ws: seq<string>)
    ensures ValuesFor(ws, "") == []
  {
    if ws != [] {
      EmptyKeyHasNoValues(ws[..|ws| - 1]);
    }
  }

  /** `parseQuery(query)`. */
  method ParseQuery(query: string) returns (out: seq<(string, QueryValue)>)
    ensures out == QueryFold(Text.Split(query, '&'))
    ensures Dicts.DistinctKeys(out)
    ensures forall k :: Dicts.Get(out, k) == Expected(Text.Split(query, '&'), k)
  {
    var ws := Text.Split(query, '&');
    out := [];
    for i := 0 to |ws|
      invariant out == QueryFold(ws[..i])
    {
      ghost var before := out;
      var w := ws[i];
      var entry := QueryEntry(w);
      if entry.Some? {
        var (k, v) := entry.value;
        var prior := Dicts.Get(out, k);
        var value := Scalar(v);
        if prior.Some? {
          // a single value becomes a one-element list, then `v` is appended
          value := if prior.value.Listed? then Listed(prior.value.vs + [v]) else Listed([prior.value.v, v]);
        }
        out := Dicts.Put(out, k, value);
      }
      assert out == QueryAdd(before, w);
      assert ws[..i + 1] == ws[..i] + [w];
    }
    assert ws[..|ws|] == ws;
    QueryFoldMeaning(ws);
  }

  /** `QueryFoldGet` for every key at once. */
  lemma QueryFoldMeaning(ws: seq<string>)
    ensures Dicts.DistinctKeys(QueryFold(ws))
    ensures forall k :: Dicts.Get(QueryFold(ws), k) == Expected(ws, k)
  {
    QueryFoldGet(ws, "");
    forall k ensures Dicts.Get(QueryFold(ws), k) == Expected(ws, k) {
      QueryFoldGet(ws, k);
    }
  }

  // ---------------------------------------------------------------------------
  // Request headers in the WSGI environment

  /** An environment value: text, the integer `CONTENT_LENGTH`, or a header value that is a list. */
  datatype EnvValue = EnvText(s: string) | EnvInt(n: int) | EnvList(vs: seq<string>)

  function AsEnv(v: HeaderValue): EnvValue
  {
    match v
    case Single(s) => EnvText(s)
    case Multi(vs) => EnvList(vs)
  }

  /** `"HTTP_%s" % h.upper().replace("-", "_")`: no dash and no lower-case ASCII letter after the `HTTP_`. */
  function CgiName(h: string): (n: string)
    ensures |n| == |h| + 5 && n[..5] == "HTTP_"
    ensures forall i :: 5 <= i < |n| ==> n[i] != '-' && !('a' <= n[i] <= 'z')
  {
    var u := Text.Upper(h);
    "HTTP_" + seq(|u|, i requires 0 <= i < |u| => if u[i] == '-' then '_' else u[i])
  }

  /** `v.split(":", 1)` with `""` appended, as name and port: the port is empty when none is given. */
  function HostParts(v: string): (p: (string, string))
    ensures ':' in v ==> v == p.0 + ":" + p.1 && ':' !in p.0
    ensures ':' !in v ==> p == (v, "")
  {
    var words := Text.SplitOnce(v, ':') + [""];
    (words[0], words[1])
  }

  /** The environment keys a header named `h` sets. */
  function EnvKeys(h: string): seq<string>
  {
    var l := Text.Lower(h);
    if l == "content-type" then ["CONTENT_TYPE"]
    else if l == "host" then ["HTTP_HOST", "SERVER_NAME", "SERVER_PORT"]
    else if l == "content-length" then ["CONTENT_LENGTH"]
    else [CgiName(l)]
  }

  /** A `Content-Length` header, in any case. */
  predicate IsLength(hv: (string, HeaderValue))
  {
    Text.Lower(hv.0) == "content-length"
  }

  /**
    A header the mapping raises on: a list value where `split` (host) or
    `int` (length) is applied, or a length that is not a decimal integer.
  */
  predicate EnvFails(hv: (string, HeaderValue))
  {
    (Text.Lower(hv.0) == "host" && hv.1.Multi?)
    || (IsLength(hv) && (hv.1.Multi? || Decimal.ParseInt(hv.1.v).None?))
  }

  /**
    The value one header leaves under the key `k`, read off that header
    alone: the value itself, the host's name or port part, or the parsed
    length; `None` when the header does not set `k` or cannot be mapped.
  */
  function HeaderEnvValue(hv: (string, HeaderValue), k: string): (r: Option<EnvValue>)
    ensures r.Some? <==> k in EnvKeys(hv.0) && !EnvFails(hv)
  {
    var l := Text.Lower(hv.0);
    if EnvFails(hv) || k !in EnvKeys(hv.0) then None
    else if l == "host" then
      var (name, port) := HostParts(hv.1.v);
      Some(EnvText(if k == "HTTP_HOST" then hv.1.v else if k == "SERVER_NAME" then name else port))
    else if l == "content-length" then Some(EnvInt(Decimal.ParseInt(hv.1.v).value))
    else Some(AsEnv(hv.1))
  }

  /**
    One turn of the header loop of `process`, on the environment and the body
    length so far; `None` where Python raises. Every key the header names
    then holds that header's value, and every other key is left alone.
  */
  function EnvAdd(env: seq<(string, EnvValue)>, length: Option<int>, hv: (string, HeaderValue))
    : (r: Option<(seq<(string, EnvValue)>, Option<int>)>)
    ensures r.None? <==> EnvFails(hv)
    ensures r.Some? ==> forall k ::
              Dicts.Get(r.value.0, k) == if k in EnvKeys(hv.0) then HeaderEnvValue(hv, k) else Dicts.Get(env, k)
  {
    var l := Text.Lower(hv.0);
    if l == "content-type" then
      PutOne(env, hv, "CONTENT_TYPE", AsEnv(hv.1));
      Some((Dicts.Put(env, "CONTENT_TYPE", AsEnv(hv.1)), length))
    else if l == "host" then
      if hv.1.Multi? then None
      else
        var (name, port) := HostParts(hv.1.v);
        var e1 := Dicts.Put(env, "HTTP_HOST", EnvText(hv.1.v));
        var e2 := Dicts.Put(e1, "SERVER_NAME", EnvText(name));
        var e3 := Dicts.Put(e2, "SERVER_PORT", EnvText(port));
        assert forall k :: Dicts.Get(e3, k) == if k in EnvKeys(hv.0) then HeaderEnvValue(hv, k) else Dicts.Get(env, k) by {
          forall k {
            PutHost(env, hv, k);
          }
        }
        Some((e3, length))
    else if l == "content-length" then
      if hv.1.Multi? || Decimal.ParseInt(hv.1.v).None? then None
      else
        var n := Decimal.ParseInt(hv.1.v).value;
        PutOne(env, hv, "CONTENT_LENGTH", EnvInt(n));
        Some((Dicts.Put(env, "CONTENT_LENGTH", EnvInt(n)), Some(n)))
    else
      PutOne(env, hv, CgiName(l), AsEnv(hv.1));
      Some((Dicts.Put(env, CgiName(l), AsEnv(hv.1)), length))
  }

  /** A header that sets the single key `key` to `v`: the one `Put` leaves every other key alone. */
  lemma PutOne(env: seq<(string, EnvValue)>, hv: (string, HeaderValue), key: string, v: EnvValue)
    requires EnvKeys(hv.0) == [key] && HeaderEnvValue(hv, key) == Some(v)
    ensures forall k ::
              Dicts.Get(Dicts.Put(env, key, v), k) == if k in EnvKeys(hv.0) then HeaderEnvValue(hv, k) else Dicts.Get(env, k)
  {
  }

  /** A `Host` header: its three `Put`s write three different keys. */
  lemma PutHost(env: seq<(string, EnvValue)>, hv: (string, HeaderValue), k: string)
    requires Text.Lower(hv.0) == "host" && hv.1.Single?
    ensures var (name, port) := HostParts(hv.1.v);
      var e := Dicts.Put(Dicts.Put(Dicts.Put(env, "HTTP_HOST", EnvText(hv.1.v)), "SERVER_NAME", EnvText(name)), "SERVER_PORT", EnvText(port));
      Dicts.Get(e, k) == if k in EnvKeys(hv.0) then HeaderEnvValue(hv, k) else Dicts.Get(env, k)
  {
    var (name, port) := HostParts(hv.1.v);
    HostValues(hv);
    PutThree(env, "HTTP_HOST", EnvText(hv.1.v), "SERVER_NAME", EnvText(name), "SERVER_PORT", EnvText(port), k);
  }

  /** The three keys a `Host` header sets, and what it stores under each. */
  lemma HostValues(hv: (string, HeaderValue))
    requires Text.Lower(hv.0) == "host" && hv.1.Single?
    ensures EnvKeys(hv.0) == ["HTTP_HOST", "SERVER_NAME", "SERVER_PORT"]
    ensures HeaderEnvValue(hv, "HTTP_HOST") == Some(EnvText(hv.1.v))
    ensures HeaderEnvValue(hv, "SERVER_NAME") == Some(EnvText(HostParts(hv.1.v).0))
    ensures HeaderEnvValue(hv, "SERVER_PORT") == Some(EnvText(HostParts(hv.1.v).1))
  {
    assert !EnvFails(hv);
  }

  /** Three `Put`s on three different keys: the last one written under `k` is the one read back. */
  lemma PutThree<V>(d: seq<(string, V)>, a: string, va: V, b: string, vb: V, c: string, vc: V, k: string)
    requires a != b && b != c && a != c
    ensures Dicts.Get(Dicts.Put(Dicts.Put(Dicts.Put(d, a, va), b, vb), c, vc), k) ==
      if k == c then Some(vc) else if k == b then Some(vb) else if k == a then Some(va) else Dicts.Get(d, k)
  {
  }

  /** The whole header loop. */
  function EnvFold(env: seq<(string, EnvValue)>, length: Option<int>, hs: seq<(string, HeaderValue)>)
    : (r: Option<(seq<(string, EnvValue)>, Option<int>)>)
    ensures r.Some? ==> forall k :: k in Dicts.Keys(env) ==> k in Dicts.Keys(r.value.0)
    ensures r.Some? && r.value.1 != length ==> exists i :: 0 <= i < |hs| && IsLength(hs[i])
    decreases |hs|
  {
    if hs == [] then Some((env, length))
    else
      match EnvAdd(env, length, hs[0])
      case None => None
      case Some((e, n)) =>
        var r := EnvFold(e, n, hs[1..]);
        assert r.Some? ==> forall k :: k in Dicts.Keys(env) ==> k in Dicts.Keys(r.value.0) by {
          forall k | k in Dicts.Keys(env) {
            EnvAddKeys(env, length, hs[0], k);
          }
        }
        assert r.Some? && r.value.1 != n ==> exists i :: 1 <= i < |hs| && IsLength(hs[i]) by {
          if r.Some? && r.value.1 != n {
            var i :| 0 <= i < |hs[1..]| && IsLength(hs[1..][i]);
            assert hs[1..][i] == hs[i + 1];
          }
        }
        r
  }

  /** The loop raises exactly when some header is one it cannot map. */
  lemma {:induction false} EnvFoldFails(env: seq<(string, EnvValue)>, length: Option<int>, hs: seq<(string, HeaderValue)>)
    ensures EnvFold(env, length, hs).None? <==> exists i :: 0 <= i < |hs| && EnvFails(hs[i])
    decreases |hs|
  {
    if hs != [] {
      match EnvAdd(env, length, hs[0])
      case None =>
      case Some((e, n)) =>
        EnvFoldFails(e, n, hs[1..]);
        if exists i :: 0 <= i < |hs| && EnvFails(hs[i]) {
          var i :| 0 <= i < |hs| && EnvFails(hs[i]);
          assert i > 0 && hs[1..][i - 1] == hs[i];
        }
    }
  }

  /** Header `i` is the last `Content-Length` header and gives the length `n`. */
  predicate LastLengthAt(hs: seq<(string, HeaderValue)>, i: nat, n: Option<int>)
  {
    && i < |hs| && IsLength(hs[i]) && hs[i].1.Single? && n == Decimal.ParseInt(hs[i].1.v)
    && forall j :: i < j < |hs| ==> !IsLength(hs[j])
  }

  /**
    The body length is the value of the last `Content-Length` header, or
    what it was before the loop when there is none.
  */
  lemma {:induction false} EnvFoldLength(env: seq<(string, EnvValue)>, length: Option<int>, hs: seq<(string, HeaderValue)>)
    requires EnvFold(env, length, hs).Some?
    ensures var n := EnvFold(env, length, hs).value.1;
      || (n == length && forall i :: 0 <= i < |hs| ==> !IsLength(hs[i]))
      || exists i :: LastLengthAt(hs, i, n)
    decreases |hs|
  {
    if hs != [] {
      var (e, n) := EnvAdd(env, length, hs[0]).value;
      var tail := hs[1..];
      EnvAddLength(env, length, hs[0]);
      EnvFoldLength(e, n, tail);
      var r := EnvFold(e, n, tail).value.1;
      assert EnvFold(env, length, hs).value.1 == r;
      if exists i :: LastLengthAt(tail, i, r) {
        var i :| LastLengthAt(tail, i, r);
        LastLengthShift(hs, i, r);
      } else {
        NoLengthShift(hs);
        if IsLength(hs[0]) {
          assert LastLengthAt(hs, 0, r);
        }
      }
    }
  }

  lemma LastLengthShift(hs: seq<(string, HeaderValue)>, i: nat, n: Option<int>)
    requires hs != [] && LastLengthAt(hs[1..], i, n)
    ensures LastLengthAt(hs, i + 1, n)
  {
    assert hs[i + 1] == hs[1..][i];
    forall j | i + 1 < j < |hs| ensures !IsLength(hs[j]) {
      assert hs[j] == hs[1..][j - 1];
    }
  }

  lemma NoLengthShift(hs: seq<(string, HeaderValue)>)
    requires hs != [] && forall i :: 0 <= i < |hs| - 1 ==> !IsLength(hs[1..][i])
    ensures forall j :: 0 < j < |hs| ==> !IsLength(hs[j])
  {
    forall j | 0 < j < |hs| ensures !IsLength(hs[j]) {
      assert hs[j] == hs[1..][j - 1];
    }
  }

  /** A `Content-Length` header sets the body length to its value; any other header keeps it. */
  lemma EnvAddLength(env: seq<(string, EnvValue)>, length: Option<int>, hv: (string, HeaderValue))
    requires EnvAdd(env, length, hv).Some?
    ensures var n := EnvAdd(env, length, hv).value.1;
      if IsLength(hv) then hv.1.Single? && n == Decimal.ParseInt(hv.1.v) && n.Some? else n == length
  {
  }

  /** The loop sets exactly the keys its headers name, and keeps the keys already there. */
  lemma {:induction false} EnvFoldKeys(env: seq<(string, EnvValue)>, length: Option<int>, hs: seq<(string, HeaderValue)>, k: string)
    requires EnvFold(env, length, hs).Some?
    ensures k in Dicts.Keys(EnvFold(env, length, hs).value.0) <==>
      k in Dicts.Keys(env) || exists i :: 0 <= i < |hs| && k in EnvKeys(hs[i].0)
    decreases |hs|
  {
    if hs != [] {
      var (e, n) := EnvAdd(env, length, hs[0]).value;
      var tail := hs[1..];
      EnvFoldKeys(e, n, tail, k);
      EnvAddKeys(env, length, hs[0], k);
      NamedFirstOrLater(hs, k);
    }
  }

  /** A header list names `k` when its first header does or one of the rest does. */
  lemma NamedFirstOrLater(hs: seq<(string, HeaderValue)>, k: string)
    requires hs != []
    ensures (exists i :: 0 <= i < |hs| && k in EnvKeys(hs[i].0)) <==>
      k in EnvKeys(hs[0].0) || exists i :: 0 <= i < |hs[1..]| && k in EnvKeys(hs[1..][i].0)
  {
    var tail := hs[1..];
    if exists i :: 0 <= i < |tail| && k in EnvKeys(tail[i].0) {
      var i :| 0 <= i < |tail| && k in EnvKeys(tail[i].0);
      assert k in EnvKeys(hs[i + 1].0);
    }
    if exists i :: 0 <= i < |hs| && k in EnvKeys(hs[i].0) {
      var i :| 0 <= i < |hs| && k in EnvKeys(hs[i].0);
      if i > 0 {
        assert k in EnvKeys(tail[i - 1].0);
      }
    }
  }

  /**
    The position of the last header that sets `k`, or -1 when none does:
    the header whose value a later one cannot overwrite.
  */
  function LastNaming(hs: seq<(string, HeaderValue)>, k: string): (i: int)
    ensures -1 <= i < |hs|
    ensures i >= 0 ==> k in EnvKeys(hs[i].0)
    ensures forall j :: i < j < |hs| ==> k !in EnvKeys(hs[j].0)
    decreases |hs|
  {
    if hs == [] then -1
    else
      var r := LastNaming(hs[1..], k);
      assert forall j :: r + 1 < j < |hs| ==> hs[j] == hs[1..][j - 1];
      if r >= 0 then r + 1
      else if k in EnvKeys(hs[0].0) then 0
      else -1
  }

  /**
    What the loop leaves under any key: the value from the last header that
    sets it, or what the environment held before when no header does.
  */
  lemma {:induction false} EnvFoldGet(env: seq<(string, EnvValue)>, length: Option<int>, hs: seq<(string, HeaderValue)>, k: string)
    requires EnvFold(env, length, hs).Some?
    ensures var i := LastNaming(hs, k);
      Dicts.Get(EnvFold(env, length, hs).value.0, k) ==
        if i < 0 then Dicts.Get(env, k) else HeaderEnvValue(hs[i], k)
    decreases |hs|
  {
    if hs != [] {
      var (e, n) := EnvAdd(env, length, hs[0]).value;
      EnvFoldGet(e, n, hs[1..], k);
      var r := LastNaming(hs[1..], k);
      if r >= 0 {
        assert hs[1..][r] == hs[r + 1];
      }
    }
  }

  /** One header adds the keys it names and keeps the others. */
  lemma EnvAddKeys(env: seq<(string, EnvValue)>, length: Option<int>, hv: (string, HeaderValue), k: string)
    requires EnvAdd(env, length, hv).Some?
    ensures k in Dicts.Keys(EnvAdd(env, length, hv).value.0) <==> k in Dicts.Keys(env) || k in EnvKeys(hv.0)
  {
    var l := Text.Lower(hv.0);
    if l == "content-type" {
      PutHasKey(env, "CONTENT_TYPE", AsEnv(hv.1), k);
    } else if l == "host" {
      var (name, port) := HostParts(hv.1.v);
      var e1 := Dicts.Put(env, "HTTP_HOST", EnvText(hv.1.v));
      var e2 := Dicts.Put(e1, "SERVER_NAME", EnvText(name));
      PutHasKey(env, "HTTP_HOST", EnvText(hv.1.v), k);
      PutHasKey(e1, "SERVER_NAME", EnvText(name), k);
      PutHasKey(e2, "SERVER_PORT", EnvText(port), k);
    } else if l == "content-length" {
      PutHasKey(env, "CONTENT_LENGTH", EnvInt(Decimal.ParseInt(hv.1.v).value), k);
    } else {
      PutHasKey(env, CgiName(l), AsEnv(hv.1), k);
    }
  }

  lemma PutHasKey<V>(d: seq<(string, V)>, key: string, v: V, k: string)
    ensures k in Dicts.Keys(Dicts.Put(d, key, v)) <==> k in Dicts.Keys(d) || k == key
  {
    var ks := Dicts.Keys(d);
    if key !in ks {
      InSnoc(ks, key, k);
    }
  }

  lemma InSnoc(ks: seq<string>, key: string, k: string)
    ensures k in ks + [key] <==> k in ks || k == key
  {
  }

  /**
    The header loop of `process` (lines 389-401): `None` where it raises,
    else the environment with the header entries added and the body length.
  */
  method HeadersToEnviron(env: seq<(string, EnvValue)>, headers: seq<(string, HeaderValue)>)
    returns (r: Option<(seq<(string, EnvValue)>, Option<int>)>)
    ensures r == EnvFold(env, None, headers)
  {
    var e := env;
    var bodyLength: Option<int> := None;
    for i := 0 to |headers|
      invariant EnvFold(env, None, headers) == EnvFold(e, bodyLength, headers[i..])
    {
      assert headers[i..][1..] == headers[i + 1..];
      var (name, v) := headers[i];
      var h := Text.Lower(name);
      if h == "content-type" {
        e := Dicts.Put(e, "CONTENT_TYPE", AsEnv(v));
      } else if h == "host" {
        if v.Multi? {
          return None;
        }
        var words := Text.SplitOnce(v.v, ':') + [""];
        e := Dicts.Put(e, "HTTP_HOST", EnvText(v.v));
        e := Dicts.Put(e, "SERVER_NAME", EnvText(words[0]));
        e := Dicts.Put(e, "SERVER_PORT", EnvText(words[1]));
      } else if h == "content-length" {
        if v.Multi? {
          return None;
        }
        var n := Decimal.ParseInt(v.v);
        if n.None? {
          return None;
        }
        bodyLength := n;
        e := Dicts.Put(e, "CONTENT_LENGTH", EnvInt(n.value));
      } else {
        e := Dicts.Put(e, CgiName(h), AsEnv(v));
      }
    }
    return Some((e, bodyLength));
  }

  // ---------------------------------------------------------------------------
  // Servlets and the dispatcher

  /**
    A servlet: its name, its route, and the queue of requests waiting for
    it. Admission through the request processor it is built on is a queue
    that takes at most `MaxQueued` requests and raises `RuntimeError` when
    full.
  */
  class Servlet {
    const Name: string
    const Route: Route
    const MaxQueued: nat
    var Queue: seq<RequestHandle>

    constructor(name: string, route: Route, maxQueued: nat)
      requires ValidRoute(route)
      ensures Name == name && Route == route && MaxQueued == maxQueued && Queue == []
    {
      Name, Route, MaxQueued := name, route, maxQueued;
      Queue := [];
    }

    /** `add(handle)`: queued at the end when there is room, else `RuntimeError` (`false`) and nothing changes. */
    method Add(h: RequestHandle) returns (ok: bool)
      modifies this
      ensures ok <==> |old(Queue)| < MaxQueued
      ensures Queue == if ok then old(Queue) + [h] else old(Queue)
    {
      if |Queue| < MaxQueued {
        Queue := Queue + [h];
        return true;
      }
      return false;
    }

    /** The first step of `process`: the request URI rewritten by the route and set again. */
    method RewriteRequest(header: HTTPHeader, sub: RegexSub)
      requires header.URI.Some?
      modifies header
      ensures header.Fields() == WithURI(old(header.Fields()), RewriteUri(Route, old(header.URI.value), sub))
      ensures header.Buffer == old(header.Buffer)
    {
      header.SetURI(RewriteUri(Route, header.URI.value, sub));
    }
  }

  /** The index of the first route that accepts `uri`. */
  function FirstMatch(routes: seq<Route>, uri: string): (m: Option<nat>)
    ensures m.Some? ==> m.value < |routes| && Accepts(routes[m.value], uri)
    ensures m.Some? ==> forall j :: 0 <= j < m.value ==> !Accepts(routes[j], uri)
    ensures m.None? ==> forall j :: 0 <= j < |routes| ==> !Accepts(routes[j], uri)
  {
    if routes == [] then None
    else if Accepts(routes[0], uri) then Some(0)
    else
      match FirstMatch(routes[1..], uri)
      case None => None
      case Some(i) => Some(i + 1)
  }

  /** The dispatcher never chooses a servlet configured with a regex: `match_uri` does not return the match. */
  lemma RegexRouteNeverChosen(routes: seq<Route>, uri: string)
    ensures var m := FirstMatch(routes, uri); m.Some? ==> routes[m.value].matchRE.None?
  {
  }

  class Dispatcher {
    const Servlets: seq<Servlet>

    constructor(servlets: seq<Servlet>)
      ensures Servlets == servlets
    {
      Servlets := servlets;
    }

    function Routes(): (rs: seq<Route>)
      ensures |rs| == |Servlets| && forall i :: 0 <= i < |Servlets| ==> rs[i] == Servlets[i].Route
    {
      seq(|Servlets|, i requires 0 <= i < |Servlets| => Servlets[i].Route)
    }

    /**
      `add(handle)`: the request goes to the first servlet that accepts its
      URI and no later one is asked; a full queue there answers 503 and
      closes the connection, and when no servlet accepts, 404 and close.
    */
    method Add(h: RequestHandle)
      requires h.Header != null && h.Header.URI.Some? && h.SockOpen
      modifies Servlets, h
      ensures h.Header == old(h.Header) && h.Body == old(h.Body)
      ensures h.ResponseStatus == old(h.ResponseStatus) && h.OutBuffer == old(h.OutBuffer)
      ensures var m := FirstMatch(Routes(), h.Header.URI.value);
        && (m.None? ==> h.Sent == old(h.Sent) + [NotFound()] && !h.SockOpen)
        && (m.Some? && |old(Servlets[m.value].Queue)| < Servlets[m.value].MaxQueued ==>
              Servlets[m.value].Queue == old(Servlets[m.value].Queue) + [h] && h.Sent == old(h.Sent) && h.SockOpen)
        && (m.Some? && |old(Servlets[m.value].Queue)| >= Servlets[m.value].MaxQueued ==>
              Servlets[m.value].Queue == old(Servlets[m.value].Queue) && h.Sent == old(h.Sent) + [QueueFull()] && !h.SockOpen)
        && forall j :: 0 <= j < |Servlets| && (m.None? || Servlets[j] != Servlets[m.value]) ==>
              Servlets[j].Queue == old(Servlets[j].Queue)
    {
      var uri := h.Header.URI.value;
      var routes := Routes();
      for i := 0 to |Servlets|
        invariant forall j :: 0 <= j < i ==> !Accepts(routes[j], uri)
      {
        var servlet := Servlets[i];
        if MatchUri(servlet.Route, uri) == Some(true) {
          assert FirstMatch(routes, uri) == Some(i) by {
            FirstMatchAt(routes, uri, i);
          }
          var ok := servlet.Add(h);
          if !ok {
            h.SendAll(QueueFull());
            h.Close();
          }
          return;
        }
      }
      h.SendAll(NotFound());
      h.Close();
    }
  }

  /** The first accepting route is the one the search finds. */
  lemma {:induction false} FirstMatchAt(routes: seq<Route>, uri: string, i: nat)
    requires i < |routes| && Accepts(routes[i], uri)
    requires forall j :: 0 <= j < i ==> !Accepts(routes[j], uri)
    ensures FirstMatch(routes, uri) == Some(i)
  {
    if i > 0 {
      FirstMatchAt(routes[1..], uri, i - 1);
    }
  }

  // ---------------------------------------------------------------------------
  // The request reader

  /** What `RequestReader.process` does with a connection: passes it on, closes it, or raises. */
  datatype ReaderResult = Forwarded | Dropped | Failed

  /** A fresh `HTTPHeader` after `recv` has read `chunks` (the socket's deliveries), and what `recv` returned. */
  function ReadHeader(chunks: seq<Bytes>): (HeaderState, RecvResult)
  {
    RecvLoop(HeaderState(Initial.fields.(error := Cleared), []), chunks)
  }

  /** The test in `process`: something was received, it is valid, it is a request, and `Error` is not set. */
  predicate Admitted(st: HeaderState, r: RecvResult)
  {
    r.Got? && r.received && IsValid(st.fields) && IsClient(st.fields) && !ErrorTruthy(st.fields.error)
  }

  /** Whatever parsed a request line also set a URI. */
  predicate ClientHasURI(f: HeaderFields)
  {
    f.verb.Some? ==> f.uri.Some?
  }

  lemma ConsumeKeepsClientURI(h: HeaderState, inp: Bytes)
    requires ClientHasURI(h.fields)
    ensures ClientHasURI(ConsumeStep(h, inp).0.fields)
  {
    var buf := h.buffer + inp;
    if FindEOH(buf, 0).Some? {
      var w := HeadWords(buf);
      if |w| != 3 {
        ConsumeMalformed(h, inp);
      } else if Text.StartsWith(Text.Lower(w[0]), "http/") {
        ConsumeStatusLine(h, inp);
      } else {
        ConsumeRequestLine(h, inp);
      }
    }
  }

  lemma {:induction false} RecvKeepsClientURI(h: HeaderState, chunks: seq<Bytes>)
    requires ClientHasURI(h.fields)
    ensures ClientHasURI(RecvLoop(h, chunks).0.fields)
    decreases |chunks|
  {
    if chunks != [] && chunks[0] != [] {
      ConsumeKeepsClientURI(h, chunks[0]);
      RecvKeepsClientURI(ConsumeStep(h, chunks[0]).0, chunks[1..]);
    }
  }

  /**
    `RequestReader.process(handle)`: a fresh header reads the request from
    the connection; a request that passes the test is attached to the
    handle with the body bytes read past the head, anything else closes
    the connection, and an exception in `recv` leaves the handle as it was.
  */
  method ReaderProcess(h: RequestHandle, chunks: seq<Bytes>) returns (r: ReaderResult)
    modifies h
    ensures var (st, rr) := ReadHeader(chunks);
      && (r == Failed <==> rr.RecvRaised?)
      && (r == Forwarded <==> Admitted(st, rr))
      && (r == Forwarded ==>
            && h.Header != null && fresh(h.Header) && h.Header.State() == st && h.Header.URI.Some?
            && h.Body == rr.body && h.SockOpen == old(h.SockOpen))
      && (r != Forwarded ==> h.Header == old(h.Header) && h.Body == old(h.Body))
      && (r == Dropped ==> !h.SockOpen)
      && (r == Failed ==> h.SockOpen == old(h.SockOpen))
    ensures h.Sent == old(h.Sent) && h.ResponseStatus == old(h.ResponseStatus) && h.OutBuffer == old(h.OutBuffer)
  {
    var header := new HTTPHeader();
    var rr := header.Recv(chunks);
    RecvKeepsClientURI(HeaderState(Initial.fields.(error := Cleared), []), chunks);
    r := Admit(h, header, rr);
  }

  /** The test at the end of `process`, on the header `recv` filled and its result `rr`. */
  method Admit(h: RequestHandle, header: HTTPHeader, rr: RecvResult) returns (r: ReaderResult)
    requires ClientHasURI(header.Fields())
    modifies h
    ensures r == Failed <==> rr.RecvRaised?
    ensures r == Forwarded <==> Admitted(header.State(), rr)
    ensures r == Forwarded ==> h.Header == header && header.URI.Some? && h.Body == rr.body && h.SockOpen == old(h.SockOpen)
    ensures r != Forwarded ==> h.Header == old(h.Header) && h.Body == old(h.Body)
    ensures r == Dropped ==> !h.SockOpen
    ensures r == Failed ==> h.SockOpen == old(h.SockOpen)
    ensures h.Sent == old(h.Sent) && h.ResponseStatus == old(h.ResponseStatus) && h.OutBuffer == old(h.OutBuffer)
  {
    if rr.RecvRaised? {
      return Failed;
    }
    if !Admitted(header.State(), rr) {
      h.Close();
      return Dropped;
    }
    h.Header := header;
    h.Body := rr.body;
    return Forwarded;
  }

  /**
    A request that arrives in one delivery is passed on exactly when its
    head is complete and its start line has three words, the first not
    naming a protocol (so it is a request, not a response) and the third
    naming HTTP.
  */
  lemma OneChunkAdmission(c: Bytes)
    requires c != []
    ensures var (st, rr) := ReadHeader([c]);
      Admitted(st, rr) <==>
        && FindEOH(c, 0).Some? && |HeadWords(c)| == 3
        && !Text.StartsWith(Text.Lower(HeadWords(c)[0]), "http/")
        && Text.StartsWith(Text.Upper(HeadWords(c)[2]), "HTTP/")
  {
    var h0 := HeaderState(Initial.fields.(error := Cleared), []);
    OneDelivery(h0, c);
    FreshConsume(c);
  }

  /** The test of `process` applied to the outcome of one `consume`. */
  predicate AdmitsStep(h: HeaderState, o: Outcome)
  {
    o.Returned? && o.received && IsValid(h.fields) && IsClient(h.fields) && !ErrorTruthy(h.fields.error)
  }

  /** One `consume` of a fresh header on `c` passes the test exactly for a complete, well-formed HTTP request head. */
  lemma FreshConsume(c: Bytes)
    ensures var (h1, o) := ConsumeStep(HeaderState(Initial.fields.(error := Cleared), []), c);
      AdmitsStep(h1, o) <==>
        && FindEOH(c, 0).Some? && |HeadWords(c)| == 3
        && !Text.StartsWith(Text.Lower(HeadWords(c)[0]), "http/")
        && Text.StartsWith(Text.Upper(HeadWords(c)[2]), "HTTP/")
  {
    var h0 := HeaderState(Initial.fields.(error := Cleared), []);
    assert h0.buffer + c == c;
    if FindEOH(c, 0).None? {
      FindEOHNoneIff(c);
      ConsumeIncomplete(h0, c);
    } else {
      var w := HeadWords(c);
      if |w| != 3 {
        ConsumeMalformed(h0, c);
      } else if Text.StartsWith(Text.Lower(w[0]), "http/") {
        ConsumeStatusLine(h0, c);
      } else {
        RequestValidity(h0, c);
        ConsumeRequestLine(h0, c);
      }
    }
  }

  /** `recv` on one delivery followed by the end of the stream: one `consume`, seen through `recv`. */
  lemma OneDelivery(h: HeaderState, c: Bytes)
    requires c != []
    ensures var (h1, o) := ConsumeStep(h, c);
      && RecvLoop(h, [c]).0 == h1
      && (o.Raised? ==> RecvLoop(h, [c]).1 == RecvRaised)
      && (o.Returned? ==> RecvLoop(h, [c]).1.Got? && RecvLoop(h, [c]).1.received == o.received)
      && (Admitted(RecvLoop(h, [c]).0, RecvLoop(h, [c]).1) <==> AdmitsStep(h1, o))
  {
    assert [c][1..] == [];
  }
}
