/**
  The request-header state machine of the old threaded server
  (`HTTPHeader` in webpie/old/HTTPServer2.py): bytes are accumulated across
  `consume` calls until the first `\r?\n\r?\n`, then the head is split off,
  the start line and the field lines are parsed (the message layout of
  section 3 of RFC 7230), and whatever followed the blank line is handed back
  as the beginning of the body.

  `HeaderState` is a snapshot of all fields of the object; `ConsumeStep` says
  what one `consume` call does to it. The class `HTTPHeader` holds the same
  fields and its methods are proved to follow `ConsumeStep` and friends.
*/
module HttpHeader {
  import opened Wrappers
  import Text
  import Decimal
  import Dicts

  newtype byte = b: int | 0 <= b < 256
  type Bytes = seq<byte>

  const CR: byte := 13
  const LF: byte := 10

  /** Longest header block accepted without a terminator. */
  const MAXREAD: nat := 100000

  /**
    `to_str`: bytes to text. The helper lives outside this model; it is taken
    to map each byte to the character with the same code (Latin-1), which
    agrees with UTF-8 on ASCII input.
  */
  function Decode(b: Bytes): (s: string)
    ensures |s| == |b| && forall i :: 0 <= i < |b| ==> s[i] as int == b[i] as int
  {
    seq(|b|, i requires 0 <= i < |b| => b[i] as int as char)
  }

  // ---------------------------------------------------------------------------
  // The end-of-header regex `\r?\n\r?\n`

  /** The four byte strings the regex `\r?\n\r?\n` can match. */
  predicate IsTerminator(t: Bytes)
  {
    t == [CR, LF, CR, LF] || t == [CR, LF, LF] || t == [LF, CR, LF] || t == [LF, LF]
  }

  /**
    End of the match of `\r?\n\r?\n` that starts at `i`, as Python's regex
    engine finds it (greedy optional `\r`, backtracking), or `None`.
  */
  function MatchEnd(b: Bytes, i: nat): (r: Option<nat>)
    requires i <= |b|
    ensures r.Some? ==> i + 2 <= r.value <= i + 4 && r.value <= |b|
  {
    var j := if i < |b| && b[i] == CR then i + 1 else i;
    if j < |b| && b[j] == LF then
      var k := j + 1;
      if k + 1 < |b| && b[k] == CR && b[k + 1] == LF then Some(k + 2)
      else if k < |b| && b[k] == LF then Some(k + 1)
      else None
    else None
  }

  /** The regex matches at `i` exactly when one of the four terminators starts there. */
  lemma MatchEndIsTerminator(b: Bytes, i: nat)
    requires i <= |b|
    ensures MatchEnd(b, i).Some? ==> IsTerminator(b[i..MatchEnd(b, i).value])
    ensures (exists e :: i <= e <= |b| && IsTerminator(b[i..e])) ==> MatchEnd(b, i).Some?
  {
    if exists e :: i <= e <= |b| && IsTerminator(b[i..e]) {
      var e :| i <= e <= |b| && IsTerminator(b[i..e]);
      TerminatorMatches(b, i, e);
    }
    if MatchEnd(b, i).Some? {
      MatchIsTerminator(b, i);
    }
  }

  lemma TerminatorMatches(b: Bytes, i: nat, e: nat)
    requires i <= e <= |b| && IsTerminator(b[i..e])
    ensures MatchEnd(b, i).Some?
  {
    var t := b[i..e];
    assert t[0] == b[i] && t[1] == b[i + 1];
    if |t| >= 3 {
      assert t[2] == b[i + 2];
    }
  }

  lemma MatchIsTerminator(b: Bytes, i: nat)
    requires i <= |b| && MatchEnd(b, i).Some?
    ensures IsTerminator(b[i..MatchEnd(b, i).value])
  {
    var e := MatchEnd(b, i).value;
    if e - i == 4 {
      assert b[i..e] == [b[i], b[i + 1], b[i + 2], b[i + 3]];
    } else if e - i == 3 {
      assert b[i..e] == [b[i], b[i + 1], b[i + 2]];
    } else {
      assert b[i..e] == [b[i], b[i + 1]];
    }
  }

  /**
    `EOH_RE.search(b)` from position `from`: the leftmost start of a match and
    its end.
  */
  function FindEOH(b: Bytes, from: nat): (r: Option<(nat, nat)>)
    requires from <= |b|
    ensures r.Some? ==> from <= r.value.0 <= |b| && MatchEnd(b, r.value.0) == Some(r.value.1)
    ensures r.Some? ==> forall i :: from <= i < r.value.0 ==> MatchEnd(b, i).None?
    ensures r.None? ==> forall i :: from <= i <= |b| ==> MatchEnd(b, i).None?
    decreases |b| - from
  {
    match MatchEnd(b, from)
    case Some(e) => Some((from, e))
    case None => if from == |b| then None else FindEOH(b, from + 1)
  }

  /** A match found in `b` is still the earliest match once more bytes are appended. */
  lemma {:induction false} SearchStable(b: Bytes, x: Bytes)
    requires FindEOH(b, 0).Some?
    ensures FindEOH(b + x, 0) == FindEOH(b, 0)
  {
    var (i1, i2) := FindEOH(b, 0).value;
    var bx := b + x;
    assert MatchEnd(bx, i1) == Some(i2) by {
      assert forall j :: 0 <= j < |b| ==> bx[j] == b[j];
      assert i1 + 2 <= |b|;
    }
    forall i | 0 <= i < i1 ensures MatchEnd(bx, i).None? {
      assert MatchEnd(b, i).None?;
      assert forall j :: 0 <= j < |b| ==> bx[j] == b[j];
    }
    FindEOHFrom(bx, 0, i1, i2);
  }

  /** `FindEOH` returns the first start that matches. */
  lemma {:induction false} FindEOHFrom(b: Bytes, from: nat, i1: nat, i2: nat)
    requires from <= i1 <= |b|
    requires MatchEnd(b, i1) == Some(i2)
    requires forall i :: from <= i < i1 ==> MatchEnd(b, i).None?
    ensures FindEOH(b, from) == Some((i1, i2))
    decreases i1 - from
  {
    if from < i1 {
      FindEOHFrom(b, from + 1, i1, i2);
    }
  }

  // ---------------------------------------------------------------------------
  // The parsed header

  /** A field value: `consume` only stores strings; callers may store lists, which `headersAsText` expands. */
  datatype HeaderValue = Single(v: string) | Multi(vs: seq<string>)

  /**
    The `Error` field: `False` as constructed, `None` once `recv` has started,
    or one of the two messages `consume` can set.
  */
  datatype ErrorField =
    | InitialFalse
    | Cleared
    | RequestTooLong(length: nat)
    | HeadlineUnparsable(words: nat)

  /** Python's truth test on `Error`. */
  predicate ErrorTruthy(e: ErrorField)
  {
    e.RequestTooLong? || e.HeadlineUnparsable?
  }

  /** Every field of an `HTTPHeader` object except the pending `Buffer`. */
  datatype HeaderFields = HeaderFields(
    headline: Option<string>,
    statusCode: Option<int>,
    statusMessage: string,
    verb: Option<string>,
    protocol: Option<string>,
    uri: Option<string>,
    path: Option<string>,
    query: string,
    originalURI: Option<string>,
    headers: seq<(string, HeaderValue)>,
    raw: Bytes,
    complete: bool,
    error: ErrorField)

  /** Every field of an `HTTPHeader` object. */
  datatype HeaderState = HeaderState(fields: HeaderFields, buffer: Bytes)

  /** The fields as `__init__` sets them. */
  const Initial: HeaderState :=
    HeaderState(HeaderFields(None, None, "", None, None, None, None, "", None, [], [], false, InitialFalse), [])

  /** What `consume` returns: `(received, error, rest)`, or the `ValueError` of a non-numeric status code. */
  datatype Outcome = Returned(received: bool, error: bool, rest: Bytes) | Raised

  /** `[l.strip() for l in text.split("\n")]`. */
  function HeadLines(text: string): (lines: seq<string>)
    ensures |lines| >= 1
  {
    var parts := Text.Split(text, '\n');
    seq(|parts|, i requires 0 <= i < |parts| => Text.Strip(parts[i]))
  }

  /**
    A field line's `(name, value)`: split at the first `:`, both sides
    stripped; `None` for a blank line or one without `:` (the `ValueError` of
    the tuple unpacking is swallowed). Names keep their case.
  */
  function FieldLine(l: string): (r: Option<(string, string)>)
    ensures r.Some? <==> ':' in l
  {
    var parts := Text.SplitOnce(l, ':');
    if l == [] || |parts| != 2 then None
    else Some((Text.Strip(parts[0]), Text.Strip(parts[1])))
  }

  /** The `Headers` dict built from the field lines, later lines overriding earlier ones. */
  function ParseFields(lines: seq<string>): (hs: seq<(string, HeaderValue)>)
    ensures Dicts.DistinctKeys(hs)
  {
    if lines == [] then []
    else
      var hs := ParseFields(lines[..|lines| - 1]);
      match FieldLine(lines[|lines| - 1])
      case None => hs
      case Some((k, v)) =>
        Dicts.PutDistinct(hs, k, Single(v));
        Dicts.Put(hs, k, Single(v))
  }

  /** The last field line with name `k` gives that header's value. */
  lemma {:induction false} FieldFromLastLine(lines: seq<string>, i: nat, k: string, v: string)
    requires i < |lines| && FieldLine(lines[i]) == Some((k, v))
    requires forall j :: i < j < |lines| ==> FieldLine(lines[j]).None? || FieldLine(lines[j]).value.0 != k
    ensures Dicts.Get(ParseFields(lines), k) == Some(Single(v))
    decreases |lines|
  {
    var init := lines[..|lines| - 1];
    if i < |lines| - 1 {
      FieldFromLastLine(init, i, k, v);
    }
  }

  /** A name that no field line carries is not a header. */
  lemma {:induction false} FieldAbsent(lines: seq<string>, k: string)
    requires forall j :: 0 <= j < |lines| ==> FieldLine(lines[j]).None? || FieldLine(lines[j]).value.0 != k
    ensures Dicts.Get(ParseFields(lines), k).None?
    decreases |lines|
  {
    if lines != [] {
      FieldAbsent(lines[..|lines| - 1], k);
    }
  }

  /** `setURI(uri)`: `URI` is the whole target, `Path` the part before the first `?`. */
  function WithURI(f: HeaderFields, uri: string): (r: HeaderFields)
    ensures r.uri == Some(uri) && r.path.Some? && '?' !in r.path.value
    ensures '?' !in uri ==> r.path == Some(uri)
    ensures '?' in uri ==> uri == r.path.value + "?" + Text.SplitOnce(uri, '?')[1]
    ensures r == f.(uri := r.uri, path := r.path)
  {
    var parts := Text.SplitOnce(uri, '?');
    f.(uri := Some(uri), path := Some(parts[0]))
  }

  /**
    The start line and field lines of a completed head (`lines` are the
    stripped lines of the text before the terminator, `rest` the bytes after
    it).
  */
  function ParseHead(f: HeaderFields, lines: seq<string>, rest: Bytes): (r: (HeaderFields, Outcome))
    requires |lines| >= 1
    ensures r.0.complete == f.complete && r.0.raw == f.raw && r.0.headline == Some(lines[0])
    ensures r.1.Returned? ==> r.1.received
    ensures r.1.Returned? && !r.1.error ==> r.1.rest == rest
  {
    var words := Text.SplitMax2(lines[0], ' ');
    var f1 := f.(headline := Some(lines[0]));
    if |words| != 3 then
      (f1.(error := HeadlineUnparsable(|words|)), Returned(true, true, []))
    else if Text.StartsWith(Text.Lower(words[0]), "http/") then
      StatusLine(f1, words, ParseFields(lines[1..]), rest)
    else
      RequestLine(f1, words, ParseFields(lines[1..]), rest)
  }

  /** A status line `HTTP/x code message`; a code that is not a number raises `ValueError`. */
  function StatusLine(f: HeaderFields, words: seq<string>, headers: seq<(string, HeaderValue)>, rest: Bytes)
    : (r: (HeaderFields, Outcome))
    requires |words| == 3
    ensures r.0.complete == f.complete && r.0.raw == f.raw && r.0.headline == f.headline
    ensures r.1.Returned? ==> r.1 == Returned(true, false, rest)
  {
    match Decimal.ParseInt(words[1])
    case None => (f, Raised)
    case Some(code) =>
      (f.(statusCode := Some(code), statusMessage := words[2], protocol := Some(Text.Upper(words[0])),
          headers := headers),
       Returned(true, false, rest))
  }

  /**
    A request line `METHOD target VERSION`. Defect kept from the source:
    header names are not lower-cased (webpie/old/HTTPServer2.py line 166), so
    lookups such as `Headers.get("Expect")` are case-sensitive.
  */
  function RequestLine(f: HeaderFields, words: seq<string>, headers: seq<(string, HeaderValue)>, rest: Bytes)
    : (r: (HeaderFields, Outcome))
    requires |words| == 3
    ensures r.0.complete == f.complete && r.0.raw == f.raw && r.0.headline == f.headline
    ensures r.1 == Returned(true, false, rest)
  {
    (RequestTarget(f, words).(headers := headers), Returned(true, false, rest))
  }

  /** The fields a request line sets: verb, protocol, the target and its query. */
  function RequestTarget(f: HeaderFields, words: seq<string>): (r: HeaderFields)
    requires |words| == 3
    ensures r.verb == Some(Text.Upper(words[0])) && r.protocol == Some(Text.Upper(words[2]))
    ensures r.uri == Some(words[1]) && r.originalURI == Some(words[1])
    ensures r.path.Some? && '?' !in r.path.value
    ensures '?' in words[1] ==> words[1] == r.path.value + "?" + r.query
    ensures '?' !in words[1] ==> r.path == Some(words[1]) && r.query == f.query
    ensures r == f.(verb := r.verb, protocol := r.protocol, uri := r.uri, originalURI := r.originalURI,
                    path := r.path, query := r.query)
  {
    var uri := words[1];
    var f2 := WithURI(f.(verb := Some(Text.Upper(words[0])), protocol := Some(Text.Upper(words[2])),
                         originalURI := Some(uri)), uri);
    WithQuery(f2, uri)
  }

  /** The query string detached from a target that has one; otherwise `Query` is kept. */
  function WithQuery(f: HeaderFields, uri: string): (r: HeaderFields)
    ensures '?' in uri ==> r.query == Text.SplitOnce(uri, '?')[1]
    ensures r == f.(query := r.query)
  {
    if '?' in uri then f.(query := Text.SplitOnce(uri, '?')[1]) else f
  }

  /** What `consume` does to the fields other than `Buffer`, given the accumulated bytes `buf`. */
  function Parse(f: HeaderFields, buf: Bytes): (r: (HeaderFields, Outcome))
    ensures FindEOH(buf, 0).Some? ==>
      var (i1, i2) := FindEOH(buf, 0).value;
      && r.0.complete && r.0.raw == buf[..i1]
      && (r.1.Returned? ==> r.1.received)
      && (r.1.Returned? && !r.1.error ==> r.1.rest == buf[i2..])
  {
    match FindEOH(buf, 0)
    case None =>
      var tooLong := |buf| > MAXREAD;
      (f.(error := if tooLong then RequestTooLong(|buf|) else f.error), Returned(false, tooLong, []))
    case Some((i1, i2)) =>
      ParseHead(f.(complete := true, raw := buf[..i1]), HeadLines(Decode(buf[..i1])), buf[i2..])
  }

  /**
    A `consume` that gives up on a completed head (malformed start line, or a
    status code that is not a number) leaves the old `Buffer` in place.
  */
  predicate Stale(o: Outcome)
  {
    o.Raised? || (o.received && o.error)
  }

  /** `Buffer` after `consume`: all bytes so far while waiting, empty once the head is parsed. */
  function NextBuffer(prior: Bytes, buf: Bytes, o: Outcome): Bytes
  {
    if Stale(o) then prior else if o.received then [] else buf
  }

  /** One call of `consume(inp)`: the new field values and the result. */
  function ConsumeStep(h: HeaderState, inp: Bytes): (r: (HeaderState, Outcome))
    ensures Stale(r.1) ==> r.0.buffer == h.buffer
    ensures r.1.Returned? && !r.1.received ==>
      && r.0.buffer == h.buffer + inp && r.1.rest == []
      && (r.1.error <==> |h.buffer + inp| > MAXREAD)
      && r.0.fields == h.fields.(error := r.0.fields.error)
    ensures r.1.Raised? || r.1.received ==> r.0.fields.complete
    ensures r.1.Returned? && r.1.received && !r.1.error ==> r.0.buffer == []
  {
    var buf := h.buffer + inp;
    var (f, o) := Parse(h.fields, buf);
    (HeaderState(f, NextBuffer(h.buffer, buf, o)), o)
  }

  /** A terminator occurs in `b` somewhere. */
  predicate HasTerminator(b: Bytes)
  {
    exists i, e :: 0 <= i <= e <= |b| && IsTerminator(b[i..e])
  }

  /** The search finds nothing exactly when no terminator occurs in the buffer. */
  lemma FindEOHNoneIff(b: Bytes)
    ensures FindEOH(b, 0).None? <==> !HasTerminator(b)
  {
    if FindEOH(b, 0).None? {
      forall i, e | 0 <= i <= e <= |b| ensures !IsTerminator(b[i..e]) {
        MatchEndIsTerminator(b, i);
      }
    } else {
      var (i1, i2) := FindEOH(b, 0).value;
      MatchEndIsTerminator(b, i1);
    }
  }

  /** The search stops at a terminator, and no terminator starts before it. */
  lemma EarliestTerminator(b: Bytes)
    requires FindEOH(b, 0).Some?
    ensures var (i1, i2) := FindEOH(b, 0).value;
      && i1 <= i2 <= |b| && IsTerminator(b[i1..i2])
      && forall i, e :: 0 <= i < i1 && i <= e <= |b| ==> !IsTerminator(b[i..e])
  {
    var (i1, i2) := FindEOH(b, 0).value;
    MatchEndIsTerminator(b, i1);
    forall i, e | 0 <= i < i1 && i <= e <= |b| ensures !IsTerminator(b[i..e]) {
      MatchEndIsTerminator(b, i);
    }
  }

  /**
    `consume` when no terminator has arrived yet: everything so far is kept in
    `Buffer`, nothing is returned, and the error flag is raised exactly when
    the accumulated bytes exceed `MAXREAD`. No other field changes.
  */
  lemma ConsumeIncomplete(h: HeaderState, inp: Bytes)
    requires !HasTerminator(h.buffer + inp)
    ensures var buf := h.buffer + inp;
      var (h', o) := ConsumeStep(h, inp);
      && h'.buffer == buf
      && o == Returned(false, |buf| > MAXREAD, [])
      && (ErrorTruthy(h'.fields.error) <==> ErrorTruthy(h.fields.error) || |buf| > MAXREAD)
      && h'.fields.(error := h.fields.error) == h.fields
  {
    FindEOHNoneIff(h.buffer + inp);
  }

  /**
    `consume` once a terminator is in the accumulated bytes: `Raw` is what
    precedes the earliest terminator, no terminator starts earlier, and on a
    normal return the leftover is exactly what follows it and `Buffer` is
    emptied.
  */
  lemma ConsumeComplete(h: HeaderState, inp: Bytes)
    requires HasTerminator(h.buffer + inp)
    ensures var buf := h.buffer + inp;
      var (h', o) := ConsumeStep(h, inp);
      && h'.fields.complete
      && StartsWith(buf, h'.fields.raw)
      && (forall i, e :: 0 <= i < |h'.fields.raw| && i <= e <= |buf| ==> !IsTerminator(buf[i..e]))
      && (o.Returned? ==> o.received)
      && (o.Returned? && !o.error ==>
            && h'.buffer == []
            && |h'.fields.raw| + |o.rest| <= |buf|
            && buf == h'.fields.raw + buf[|h'.fields.raw|..|buf| - |o.rest|] + o.rest
            && IsTerminator(buf[|h'.fields.raw|..|buf| - |o.rest|]))
  {
    var buf := h.buffer + inp;
    FindEOHNoneIff(buf);
    EarliestTerminator(buf);
    var (i1, i2) := FindEOH(buf, 0).value;
    var (f, o) := Parse(h.fields, buf);
    assert ConsumeStep(h, inp).0.fields == f && ConsumeStep(h, inp).1 == o;
    if o.Returned? && !o.error {
      CutInThree(buf, i1, i2, f.raw, o.rest);
    } else {
      CutInThree(buf, i1, i2, f.raw, buf[i2..]);
    }
  }

  /** Bytes cut at `i <= j` are the head before `i`, the part between, and the rest from `j`. */
  lemma CutInThree(b: Bytes, i: nat, j: nat, head: Bytes, rest: Bytes)
    requires i <= j <= |b| && head == b[..i] && rest == b[j..]
    ensures StartsWith(b, head) && |head| == i && |head| + |rest| <= |b|
    ensures b[|head|..|b| - |rest|] == b[i..j] && b == head + b[i..j] + rest
  {
    assert b == b[..i] + b[i..j] + b[j..];
  }

  /** Python `bytes.startswith`. */
  predicate StartsWith(b: Bytes, p: Bytes)
  {
    |p| <= |b| && b[..|p|] == p
  }

  /** The words of the start line of the head a `consume` call completes. */
  function HeadWords(buf: Bytes): (w: seq<string>)
    requires FindEOH(buf, 0).Some?
    ensures 1 <= |w| <= 3
  {
    var lines := HeadLines(Decode(buf[..FindEOH(buf, 0).value.0]));
    Text.SplitMax2(lines[0], ' ')
  }

  /**
    A start line that does not split into three words: `Error` is set,
    `(True, True, b'')` is returned, and neither `Method`, `StatusCode` nor
    `Headers` is touched; `Buffer` is not cleared either.
  */
  lemma ConsumeMalformed(h: HeaderState, inp: Bytes)
    requires FindEOH(h.buffer + inp, 0).Some? && |HeadWords(h.buffer + inp)| != 3
    ensures var (h', o) := ConsumeStep(h, inp);
      && o == Returned(true, true, [])
      && h'.fields.error == HeadlineUnparsable(|HeadWords(h.buffer + inp)|) && ErrorTruthy(h'.fields.error)
      && h'.fields.verb == h.fields.verb && h'.fields.statusCode == h.fields.statusCode
      && h'.fields.headers == h.fields.headers && h'.fields.uri == h.fields.uri
      && h'.buffer == h.buffer
  {
  }

  /**
    A request line `METHOD target VERSION`: method and protocol upper-cased,
    `URI` and `OriginalURI` the target, `Path` the target up to the first `?`,
    `Query` what follows it (or unchanged when there is no `?`), and the
    fields from the remaining lines.
  */
  lemma ConsumeRequestLine(h: HeaderState, inp: Bytes)
    requires FindEOH(h.buffer + inp, 0).Some?
    requires var w := HeadWords(h.buffer + inp); |w| == 3 && !Text.StartsWith(Text.Lower(w[0]), "http/")
    ensures var w := HeadWords(h.buffer + inp);
      var (h', o) := ConsumeStep(h, inp);
      var f := h'.fields;
      && o.Returned? && o.received && !o.error
      && f.verb == Some(Text.Upper(w[0])) && f.protocol == Some(Text.Upper(w[2]))
      && f.uri == Some(w[1]) && f.originalURI == Some(w[1])
      && f.path.Some? && '?' !in f.path.value
      && (if '?' in w[1] then w[1] == f.path.value + "?" + f.query else f.path.value == w[1] && f.query == h.fields.query)
      && f.statusCode == h.fields.statusCode
      && f.headers == ParseFields(HeadLines(Decode(f.raw))[1..])
  {
  }

  /** A status line `HTTP/x code message`: protocol upper-cased, `StatusCode` read as a decimal integer, or `ValueError`. */
  lemma ConsumeStatusLine(h: HeaderState, inp: Bytes)
    requires FindEOH(h.buffer + inp, 0).Some?
    requires var w := HeadWords(h.buffer + inp); |w| == 3 && Text.StartsWith(Text.Lower(w[0]), "http/")
    ensures var w := HeadWords(h.buffer + inp);
      var (h', o) := ConsumeStep(h, inp);
      var f := h'.fields;
      && (o.Raised? <==> Decimal.ParseInt(w[1]).None?)
      && (o.Returned? ==>
            && o.received && !o.error
            && f.statusCode == Decimal.ParseInt(w[1]) && f.statusMessage == w[2]
            && f.protocol == Some(Text.Upper(w[0])) && f.verb == h.fields.verb
            && f.headers == ParseFields(HeadLines(Decode(f.raw))[1..]))
  {
  }

  // ---------------------------------------------------------------------------
  // Fragmentation: how the bytes are cut into `consume` calls does not matter

  /**
    Two calls, the first of which finds no terminator and stays within
    `MAXREAD`, return what one call on the joined input returns and leave the
    same fields; only a stale `Buffer` can differ.
  */
  lemma ConsumeTwice(h: HeaderState, a: Bytes, b: Bytes)
    requires FindEOH(h.buffer + a, 0).None? && |h.buffer + a| <= MAXREAD
    ensures var (h2, o2) := ConsumeStep(ConsumeStep(h, a).0, b);
      var (h1, o1) := ConsumeStep(h, a + b);
      o2 == o1 && h2.fields == h1.fields && (!Stale(o1) ==> h2 == h1)
  {
    var ha := ConsumeStep(h, a).0;
    assert ha == h.(buffer := h.buffer + a);
    Associative(h.buffer, a, b);
  }

  lemma Associative(x: Bytes, y: Bytes, z: Bytes)
    ensures (x + y) + z == x + (y + z)
  {
  }

  /** The bytes of several chunks joined. */
  function Concat(chunks: seq<Bytes>): Bytes
  {
    if chunks == [] then [] else chunks[0] + Concat(chunks[1..])
  }

  /** What `recv` returns: `(received, body)`, or the exception `consume` raised. */
  datatype RecvResult = Got(received: bool, body: Bytes) | RecvRaised

  /**
    The loop of `recv` from the point where nothing has been received and
    `Error` is not set: the socket delivers `chunks` and then end of stream;
    an empty chunk is end of stream too.
  */
  function RecvLoop(h: HeaderState, chunks: seq<Bytes>): (r: (HeaderState, RecvResult))
    ensures r.1.Got? && !r.1.received ==> r.1.body == []
    ensures r.1.Got? && r.1.received ==> r.0.fields.complete
    ensures r.1.RecvRaised? ==> r.0.fields.complete
    decreases |chunks|
  {
    if chunks == [] || chunks[0] == [] then (h, Got(false, []))
    else
      var (h', o) := ConsumeStep(h, chunks[0]);
      if o.Raised? then (h', RecvRaised)
      else if o.received || ErrorTruthy(h'.fields.error) then (h', Got(o.received, o.rest))
      else RecvLoop(h', chunks[1..])
  }

  /** One pass of the `recv` loop on the chunk at `k`, which `consume` turned into `h2` and `o`. */
  lemma RecvLoopStep(h: HeaderState, chunks: seq<Bytes>, k: nat, h2: HeaderState, o: Outcome)
    requires k < |chunks| && chunks[k] != [] && (h2, o) == ConsumeStep(h, chunks[k])
    ensures o.Raised? ==> RecvLoop(h, chunks[k..]) == (h2, RecvRaised)
    ensures o.Returned? && (o.received || ErrorTruthy(h2.fields.error)) ==>
      RecvLoop(h, chunks[k..]) == (h2, Got(o.received, o.rest))
    ensures o.Returned? && !o.received && !ErrorTruthy(h2.fields.error) ==>
      RecvLoop(h, chunks[k..]) == RecvLoop(h2, chunks[k + 1..])
  {
    var s := chunks[k..];
    assert s[0] == chunks[k] && s[1..] == chunks[k + 1..];
    RecvLoopHead(h, s, h2, o);
  }

  lemma RecvLoopHead(h: HeaderState, s: seq<Bytes>, h2: HeaderState, o: Outcome)
    requires s != [] && s[0] != [] && (h2, o) == ConsumeStep(h, s[0])
    ensures o.Raised? ==> RecvLoop(h, s) == (h2, RecvRaised)
    ensures o.Returned? && (o.received || ErrorTruthy(h2.fields.error)) ==> RecvLoop(h, s) == (h2, Got(o.received, o.rest))
    ensures o.Returned? && !o.received && !ErrorTruthy(h2.fields.error) ==> RecvLoop(h, s) == RecvLoop(h2, s[1..])
  {
  }

  /** A `consume` result seen through `recv`. */
  function AsRecv(o: Outcome): RecvResult
  {
    match o
    case Raised => RecvRaised
    case Returned(received, _, rest) => Got(received, rest)
  }

  /** No prefix of a terminator-free byte string holds a terminator. */
  lemma NoTerminatorInPrefix(b: Bytes, x: Bytes)
    requires FindEOH(b + x, 0).None?
    ensures FindEOH(b, 0).None?
  {
    if FindEOH(b, 0).Some? {
      SearchStable(b, x);
    }
  }

  /**
    However the socket cuts the bytes into non-empty chunks, `recv` ends with
    the fields and the result of a single `consume` on all of them, provided
    the head has not been found and is not too long before the last chunk;
    only a stale `Buffer` can differ.
  */
  lemma {:induction false} RecvAsOneConsume(h: HeaderState, chunks: seq<Bytes>)
    requires chunks != [] && forall k :: 0 <= k < |chunks| ==> chunks[k] != []
    requires !ErrorTruthy(h.fields.error)
    requires var before := h.buffer + Concat(chunks[..|chunks| - 1]);
      FindEOH(before, 0).None? && |before| <= MAXREAD
    ensures var (h', o) := ConsumeStep(h, Concat(chunks));
      var (hr, r) := RecvLoop(h, chunks);
      r == AsRecv(o) && hr.fields == h'.fields && (!Stale(o) ==> hr == h')
    decreases |chunks|
  {
    var c := chunks[0];
    var rest := chunks[1..];
    if |chunks| == 1 {
      assert Concat(chunks) == c + [];
      assert c + [] == c;
      FindEOHNoneIff(h.buffer + c);
    } else {
      assert chunks[..|chunks| - 1] == [c] + rest[..|rest| - 1];
      assert Concat(chunks[..|chunks| - 1]) == c + Concat(rest[..|rest| - 1]);
      var b1 := h.buffer + c;
      assert h.buffer + Concat(chunks[..|chunks| - 1]) == b1 + Concat(rest[..|rest| - 1]);
      NoTerminatorInPrefix(b1, Concat(rest[..|rest| - 1]));
      var h1 := ConsumeStep(h, c).0;
      assert ConsumeStep(h, c).1 == Returned(false, false, []);
      assert h1.buffer == b1 && h1.fields == h.fields;
      assert h1.buffer + Concat(rest[..|rest| - 1]) == h.buffer + Concat(chunks[..|chunks| - 1]);
      RecvAsOneConsume(h1, rest);
      ConsumeTwice(h, c, Concat(rest));
    }
  }

  // ---------------------------------------------------------------------------
  // Queries on a parsed header

  /** `is_client()`: a request line was parsed. */
  predicate IsClient(f: HeaderFields)
  {
    f.verb.Some?
  }

  /** `is_server()`: a status line was parsed. */
  predicate IsServer(f: HeaderFields)
  {
    f.statusCode.Some?
  }

  /** `is_valid()`: `recv` ran without error and the protocol names HTTP. */
  predicate IsValid(f: HeaderFields): (ok: bool)
    ensures ok <==> f.error == Cleared && f.protocol.Some? && Text.StartsWith(Text.Upper(f.protocol.value), "HTTP/")
    ensures ok ==> |f.protocol.value| >= 5
  {
    f.error == Cleared && f.protocol.Some? && f.protocol.value != ""
      && Text.StartsWith(Text.Upper(f.protocol.value), "HTTP/")
  }

  /** `is_final()`: a request, or a response whose status is not 1xx (`//` is floor division). */
  predicate IsFinal(f: HeaderFields): (final: bool)
    ensures final <==> IsClient(f) || (IsServer(f) && !(100 <= f.statusCode.value < 200))
  {
    if IsServer(f) then
      var c := f.statusCode.value;
      assert 100 <= c < 200 <==> c / 100 == 1 by {
        if c < 100 {
          assert c / 100 <= 0;
        } else if c >= 200 {
          assert c / 100 >= 2;
        }
      }
      c / 100 != 1 || IsClient(f)
    else
      IsClient(f)
  }

  /** `"%s" % x` for an optional string: `None` renders as `None`. */
  function ShowStr(x: Option<string>): string
  {
    match x
    case None => "None"
    case Some(s) => s
  }

  function ShowInt(x: Option<int>): string
  {
    match x
    case None => "None"
    case Some(i) => Decimal.IntToString(i)
  }

  /** `headline(original)`: the start line rebuilt from the parsed fields. */
  function Headline(f: HeaderFields, original: bool): string
  {
    if IsClient(f) then
      ShowStr(f.verb) + " " + ShowStr(if original then f.originalURI else f.uri) + " " + ShowStr(f.protocol)
    else
      ShowStr(f.protocol) + " " + ShowInt(f.statusCode) + " " + f.statusMessage
  }

  /** The three fields `headline` prints: method, target and version, or version, code and message. */
  function HeadlineParts(f: HeaderFields, original: bool): (w: seq<string>)
    ensures |w| == 3
  {
    if IsClient(f) then [ShowStr(f.verb), ShowStr(if original then f.originalURI else f.uri), ShowStr(f.protocol)]
    else [ShowStr(f.protocol), ShowInt(f.statusCode), f.statusMessage]
  }

  /** A headline whose three fields hold no space splits on spaces back into those fields. */
  lemma HeadlineWords(f: HeaderFields, original: bool)
    requires var w := HeadlineParts(f, original); ' ' !in w[0] && ' ' !in w[1] && ' ' !in w[2]
    ensures Text.Split(Headline(f, original), ' ') == HeadlineParts(f, original)
  {
    var w := HeadlineParts(f, original);
    JoinThree(w);
    Text.SplitJoin(w, ' ');
  }

  /** A status code prints without spaces, so only the version and the message decide how a status headline splits. */
  lemma StatusHeadlineWords(f: HeaderFields, original: bool)
    requires IsServer(f) && !IsClient(f) && ' ' !in ShowStr(f.protocol) && ' ' !in f.statusMessage
    ensures Text.Split(Headline(f, original), ' ') == [ShowStr(f.protocol), Decimal.IntToString(f.statusCode.value), f.statusMessage]
  {
    var t := Decimal.IntToString(f.statusCode.value);
    assert ' ' !in t;
    HeadlineWords(f, original);
  }

  lemma JoinThree(w: seq<string>)
    requires |w| == 3
    ensures Text.JoinWith(w, [' ']) == w[0] + " " + w[1] + " " + w[2]
  {
    assert w[1..][1..] == [w[2]];
    assert Text.JoinWith(w[1..][1..], [' ']) == w[2];
    assert Text.JoinWith(w[1..], [' ']) == w[1] + [' '] + w[2];
  }

  /**
    A request line whose method and version are already upper case is given
    back by `headline(original=True)` exactly as received.
  */
  lemma RequestHeadlineRoundTrip(h: HeaderState, inp: Bytes)
    requires FindEOH(h.buffer + inp, 0).Some?
    requires var w := HeadWords(h.buffer + inp);
      && |w| == 3 && !Text.StartsWith(Text.Lower(w[0]), "http/")
      && Text.Upper(w[0]) == w[0] && Text.Upper(w[2]) == w[2]
    ensures var f := ConsumeStep(h, inp).0.fields;
      f.headline.Some? && Headline(f, true) == f.headline.value
  {
    var w := HeadWords(h.buffer + inp);
    JoinThree(w);
    ConsumeRequestLine(h, inp);
  }

  /**
    A status line whose version is upper case and whose code is written the
    way `str()` writes it is given back by `headline()` exactly as received,
    as long as no request line was parsed into the same object before.
  */
  lemma StatusHeadlineRoundTrip(h: HeaderState, inp: Bytes)
    requires FindEOH(h.buffer + inp, 0).Some? && h.fields.verb.None?
    requires var w := HeadWords(h.buffer + inp);
      && |w| == 3 && Text.StartsWith(Text.Lower(w[0]), "http/")
      && Text.Upper(w[0]) == w[0]
      && Decimal.ParseInt(w[1]).Some? && Decimal.IntToString(Decimal.ParseInt(w[1]).value) == w[1]
    ensures var f := ConsumeStep(h, inp).0.fields;
      f.headline.Some? && Headline(f, false) == f.headline.value
  {
    var w := HeadWords(h.buffer + inp);
    JoinThree(w);
    ConsumeStatusLine(h, inp);
  }

  /** After `recv` starts, a parsed request is valid exactly when its version, upper-cased, starts with `HTTP/`. */
  lemma RequestValidity(h: HeaderState, inp: Bytes)
    requires FindEOH(h.buffer + inp, 0).Some? && h.fields.error == Cleared
    requires var w := HeadWords(h.buffer + inp); |w| == 3 && !Text.StartsWith(Text.Lower(w[0]), "http/")
    ensures var w := HeadWords(h.buffer + inp);
      var f := ConsumeStep(h, inp).0.fields;
      IsClient(f) && IsFinal(f) && (IsValid(f) <==> Text.StartsWith(Text.Upper(w[2]), "HTTP/"))
  {
    var w := HeadWords(h.buffer + inp);
    ConsumeRequestLine(h, inp);
    Text.UpperIdempotent(w[2]);
  }

  /**
    A fresh header becomes a client by a request line and a server by a
    status line, never both, and neither unless `consume` reports a received
    head without error.
  */
  lemma FreshHeadKind(inp: Bytes)
    ensures var (h, o) := ConsumeStep(Initial, inp);
      && !(IsClient(h.fields) && IsServer(h.fields))
      && (IsClient(h.fields) || IsServer(h.fields) <==> o.Returned? && o.received && !o.error)
  {
    var buf := Initial.buffer + inp;
    if FindEOH(buf, 0).Some? {
      var w := HeadWords(buf);
      if |w| != 3 {
        ConsumeMalformed(Initial, inp);
      } else if Text.StartsWith(Text.Lower(w[0]), "http/") {
        ConsumeStatusLine(Initial, inp);
      } else {
        ConsumeRequestLine(Initial, inp);
      }
    }
  }

  // ---------------------------------------------------------------------------
  // Writing the fields back out

  /** The lines of a header holding a list: one `name: value` line per element. */
  function MultiLines(k: string, vs: seq<string>): (ls: seq<string>)
    ensures |ls| == |vs| && forall j :: 0 <= j < |ls| ==> ls[j] == k + ": " + vs[j]
  {
    if vs == [] then [] else MultiLines(k, vs[..|vs| - 1]) + [k + ": " + vs[|vs| - 1]]
  }

  /** The text lines of one header: one per value of a list, one for a plain value. */
  function EntryLines(k: string, v: HeaderValue): (ls: seq<string>)
    ensures v.Single? ==> ls == [k + ": " + v.v]
    ensures v.Multi? ==> |ls| == |v.vs| && forall j :: 0 <= j < |ls| ==> ls[j] == k + ": " + v.vs[j]
  {
    match v
    case Single(s) => [k + ": " + s]
    case Multi(vs) => MultiLines(k, vs)
  }

  /** The lines `headersAsText` writes, in dict order. */
  function HeaderTextLines(hs: seq<(string, HeaderValue)>): (ls: seq<string>)
    ensures LinesNamed(hs, ls)
  {
    if hs == [] then []
    else
      var init := hs[..|hs| - 1];
      var (k, v) := hs[|hs| - 1];
      var prior := HeaderTextLines(init);
      var last := EntryLines(k, v);
      assert forall j :: 0 <= j < |prior| ==> exists i :: 0 <= i < |hs| && Text.StartsWith(prior[j], hs[i].0 + ": ") by {
        forall j | 0 <= j < |prior|
          ensures exists i :: 0 <= i < |hs| && Text.StartsWith(prior[j], hs[i].0 + ": ")
        {
          var i :| 0 <= i < |init| && Text.StartsWith(prior[j], init[i].0 + ": ");
          assert init[i] == hs[i];
        }
      }
      assert forall j :: 0 <= j < |last| ==> Text.StartsWith(last[j], hs[|hs| - 1].0 + ": ") by {
        forall j | 0 <= j < |last|
          ensures Text.StartsWith(last[j], k + ": ")
        {
          var vj := if v.Single? then v.v else v.vs[j];
          assert last[j] == (k + ": ") + vj;
        }
      }
      prior + last
  }

  /** Every line starts with the name of one of the headers and `": "`. */
  predicate LinesNamed(hs: seq<(string, HeaderValue)>, ls: seq<string>)
  {
    forall j :: 0 <= j < |ls| ==> exists i :: 0 <= i < |hs| && Text.StartsWith(ls[j], hs[i].0 + ": ")
  }

  /** Headers holding plain values only: one `name: value` line each, in order. */
  lemma {:induction false} PlainHeaderLines(hs: seq<(string, HeaderValue)>)
    requires forall i :: 0 <= i < |hs| ==> hs[i].1.Single?
    ensures |HeaderTextLines(hs)| == |hs|
    ensures forall i :: 0 <= i < |hs| ==> HeaderTextLines(hs)[i] == hs[i].0 + ": " + hs[i].1.v
  {
    if hs != [] {
      var init := hs[..|hs| - 1];
      PlainHeaderLines(init);
      var ls := HeaderTextLines(hs);
      assert ls == HeaderTextLines(init) + [hs[|hs| - 1].0 + ": " + hs[|hs| - 1].1.v];
      forall i | 0 <= i < |hs|
        ensures ls[i] == hs[i].0 + ": " + hs[i].1.v
      {
        if i < |init| {
          assert ls[i] == HeaderTextLines(init)[i] && init[i] == hs[i];
        }
      }
    }
  }

  /** `consume` only ever stores plain values. */
  lemma {:induction false} ParsedFieldsPlain(lines: seq<string>)
    ensures forall i :: 0 <= i < |ParseFields(lines)| ==> ParseFields(lines)[i].1.Single?
  {
    if lines != [] {
      ParsedFieldsPlain(lines[..|lines| - 1]);
      var hs := ParseFields(lines[..|lines| - 1]);
      match FieldLine(lines[|lines| - 1])
      case None =>
      case Some((k, v)) =>
        var r := Dicts.Put(hs, k, Single(v));
        Dicts.PutEntries(hs, k, Single(v));
        forall i | 0 <= i < |r| ensures r[i].1.Single? {
          assert r[i] in r;
          if r[i] in hs {
            var m :| 0 <= m < |hs| && hs[m] == r[i];
          }
        }
    }
  }

  lemma ParseFieldsStep(lines: seq<string>, i: nat)
    requires i < |lines|
    ensures ParseFields(lines[..i + 1]) ==
      match FieldLine(lines[i])
      case None => ParseFields(lines[..i])
      case Some((k, v)) => Dicts.Put(ParseFields(lines[..i]), k, Single(v))
  {
    assert lines[..i + 1][..i] == lines[..i];
  }

  /** The loop of `consume` over the field lines, building the `headers` dict. */
  method CollectFields(lines: seq<string>) returns (headers: seq<(string, HeaderValue)>)
    ensures headers == ParseFields(lines)
  {
    headers := [];
    var i := 0;
    while i < |lines|
      invariant 0 <= i <= |lines|
      invariant headers == ParseFields(lines[..i])
    {
      var l := lines[i];
      ParseFieldsStep(lines, i);
      if l != [] {
        var parts := Text.SplitOnce(l, ':');
        if |parts| == 2 {
          headers := Dicts.Put(headers, Text.Strip(parts[0]), Single(Text.Strip(parts[1])));
        }
      }
      i := i + 1;
    }
    assert lines[..i] == lines;
  }

  /** Appending one header appends its lines. */
  lemma HeaderTextLinesSnoc(hs: seq<(string, HeaderValue)>, i: nat)
    requires i < |hs|
    ensures HeaderTextLines(hs[..i + 1]) == HeaderTextLines(hs[..i]) + EntryLines(hs[i].0, hs[i].1)
  {
    assert hs[..i + 1][..i] == hs[..i];
  }

  /** The loop of `headersAsText` over the headers, one line per value. */
  method TextLinesOf(hs: seq<(string, HeaderValue)>) returns (out: seq<string>)
    ensures out == HeaderTextLines(hs)
  {
    out := [];
    var i := 0;
    while i < |hs|
      invariant 0 <= i <= |hs|
      invariant out == HeaderTextLines(hs[..i])
    {
      var (k, v) := hs[i];
      HeaderTextLinesSnoc(hs, i);
      if v.Multi? {
        var lines := MultiLinesOf(k, v.vs);
        out := out + lines;
      } else {
        out := out + [k + ": " + v.v];
      }
      i := i + 1;
    }
    assert hs[..i] == hs;
  }

  /** The inner loop of `headersAsText`: one line per value of a repeated header. */
  method MultiLinesOf(k: string, vs: seq<string>) returns (out: seq<string>)
    ensures out == MultiLines(k, vs)
  {
    out := [];
    var j := 0;
    while j < |vs|
      invariant 0 <= j <= |vs|
      invariant out == MultiLines(k, vs[..j])
    {
      assert vs[..j + 1][..j] == vs[..j];
      out := out + [k + ": " + vs[j]];
      j := j + 1;
    }
    assert vs[..j] == vs;
  }

  // ---------------------------------------------------------------------------
  // The object

  class HTTPHeader {
    var Headline: Option<string>
    var StatusCode: Option<int>
    var StatusMessage: string
    var Method: Option<string>
    var Protocol: Option<string>
    var URI: Option<string>
    var Path: Option<string>
    var Query: string
    var OriginalURI: Option<string>
    var Headers: seq<(string, HeaderValue)>
    var Raw: Bytes
    var Buffer: Bytes
    var Complete: bool
    var Error: ErrorField

    function Fields(): HeaderFields
      reads this
    {
      HeaderFields(Headline, StatusCode, StatusMessage, Method, Protocol, URI, Path, Query, OriginalURI,
                   Headers, Raw, Complete, Error)
    }

    function State(): HeaderState
      reads this
    {
      HeaderState(Fields(), Buffer)
    }

    constructor()
      ensures State() == Initial
    {
      Headline, StatusCode, StatusMessage := None, None, "";
      Method, Protocol, URI, Path := None, None, None, None;
      Query, OriginalURI := "", None;
      Headers, Raw, Buffer := [], [], [];
      Complete, Error := false, InitialFalse;
    }

    /** `setURI(uri)`. */
    method SetURI(uri: string)
      modifies this
      ensures Fields() == WithURI(old(Fields()), uri) && Buffer == old(Buffer)
    {
      Path, URI := Some(uri), Some(uri);
      if '?' in uri {
        Path := Some(Text.SplitOnce(uri, '?')[0]);
      }
    }

    /** `replaceURI(uri)`: `URI` and `Path` both become `uri`; `Query` is left as it was. */
    method ReplaceURI(uri: string)
      modifies this
      ensures Fields() == old(Fields()).(uri := Some(uri), path := Some(uri)) && Buffer == old(Buffer)
    {
      URI, Path := Some(uri), Some(uri);
    }

    /** `consume(inp)`. */
    method Consume(inp: Bytes) returns (o: Outcome)
      modifies this
      ensures (State(), o) == ConsumeStep(old(State()), inp)
    {
      var headerBuffer := Buffer + inp;
      var m := FindEOH(headerBuffer, 0);
      if m.None? {
        Buffer := headerBuffer;
        var error := false;
        if |headerBuffer| > MAXREAD {
          Error := RequestTooLong(|headerBuffer|);
          error := true;
        }
        return Returned(false, error, []);
      }
      var (i1, i2) := m.value;
      ghost var prior := old(State());
      Complete := true;
      Raw := headerBuffer[..i1];
      assert Fields() == prior.fields.(complete := true, raw := headerBuffer[..i1]);
      o := ParseHeadLines(HeadLines(Decode(Raw)), headerBuffer[i2..]);
      assert (Fields(), o) == Parse(prior.fields, headerBuffer);
      if !Stale(o) {
        Buffer := [];
      }
    }

    /**
      The part of `consume` after the head has been cut off: the start line
      and the field lines; `rest` is what followed the terminator.
    */
    method ParseHeadLines(lines: seq<string>, rest: Bytes) returns (o: Outcome)
      requires |lines| >= 1
      modifies this
      ensures (Fields(), o) == ParseHead(old(Fields()), lines, rest) && Buffer == old(Buffer)
    {
      ghost var f1 := old(Fields()).(headline := Some(lines[0]));
      Headline := Some(lines[0]);
      assert Fields() == f1;
      var words := Text.SplitMax2(lines[0], ' ');
      if |words| != 3 {
        Error := HeadlineUnparsable(|words|);
        assert Fields() == f1.(error := HeadlineUnparsable(|words|));
        return Returned(true, true, []);
      }
      if Text.StartsWith(Text.Lower(words[0]), "http/") {
        o := ParseStatusLine(words, lines, rest);
      } else {
        o := ParseRequestLine(words, lines, rest);
      }
    }

    /** The status-line branch of `consume`. */
    method ParseStatusLine(words: seq<string>, lines: seq<string>, rest: Bytes) returns (o: Outcome)
      requires |words| == 3 && |lines| >= 1
      modifies this
      ensures (Fields(), o) == StatusLine(old(Fields()), words, ParseFields(lines[1..]), rest)
      ensures Buffer == old(Buffer)
    {
      var code := Decimal.ParseInt(words[1]);
      if code.None? {
        return Raised;
      }
      StatusCode := code;
      StatusMessage := words[2];
      Protocol := Some(Text.Upper(words[0]));
      Headers := CollectFields(lines[1..]);
      return Returned(true, false, rest);
    }

    /** The request-line branch of `consume`. */
    method ParseRequestLine(words: seq<string>, lines: seq<string>, rest: Bytes) returns (o: Outcome)
      requires |words| == 3 && |lines| >= 1
      modifies this
      ensures (Fields(), o) == RequestLine(old(Fields()), words, ParseFields(lines[1..]), rest)
      ensures Buffer == old(Buffer)
    {
      SetRequestTarget(words);
      Headers := CollectFields(lines[1..]);
      return Returned(true, false, rest);
    }

    /** The assignments of the request-line branch before the field lines are read. */
    method SetRequestTarget(words: seq<string>)
      requires |words| == 3
      modifies this
      ensures Fields() == RequestTarget(old(Fields()), words) && Buffer == old(Buffer)
    {
      var uri := words[1];
      ghost var f1 := old(Fields()).(verb := Some(Text.Upper(words[0])), protocol := Some(Text.Upper(words[2])),
                                     originalURI := Some(uri));
      Method := Some(Text.Upper(words[0]));
      Protocol := Some(Text.Upper(words[2]));
      URI, OriginalURI := Some(uri), Some(uri);
      assert Fields() == f1.(uri := Some(uri));
      SetURI(uri);
      SetQuery(uri);
    }

    /** Detaching the query part of the target. */
    method SetQuery(uri: string)
      modifies this
      ensures Fields() == WithQuery(old(Fields()), uri) && Buffer == old(Buffer)
    {
      if '?' in uri {
        Query := Text.SplitOnce(uri, '?')[1];
      }
    }

    /**
      `recv(sock)` with the socket's deliveries given as `chunks`, followed by
      end of stream: `Error` is cleared, then `consume` runs on each chunk
      until the head is received, an error is set, or the stream ends.
    */
    method Recv(chunks: seq<Bytes>) returns (r: RecvResult)
      modifies this
      ensures (State(), r) == RecvLoop(HeaderState(old(Fields()).(error := Cleared), old(Buffer)), chunks)
    {
      Error := Cleared;
      ghost var start := State();
      var received, eof := false, false;
      var body: Bytes := [];
      var k := 0;
      while !received && !ErrorTruthy(Error) && !eof
        invariant k <= |chunks|
        invariant !received && !ErrorTruthy(Error) && !eof ==>
          body == [] && RecvLoop(start, chunks) == RecvLoop(State(), chunks[k..])
        invariant received || ErrorTruthy(Error) || eof ==> RecvLoop(start, chunks) == (State(), Got(received, body))
        decreases |chunks| - k, if eof then 0 else 1
      {
        var data: Bytes := if k < |chunks| then chunks[k] else [];
        if data != [] {
          var o := RecvOne(chunks, k);
          k := k + 1;
          if o.Raised? {
            return RecvRaised;
          }
          received := o.received;
          body := o.rest;
        } else {
          eof := true;
        }
      }
      return Got(received, body);
    }

    /** One pass of the `recv` loop: `consume` on the chunk at `k`, and where the loop goes from there. */
    method RecvOne(chunks: seq<Bytes>, k: nat) returns (o: Outcome)
      requires k < |chunks| && chunks[k] != []
      modifies this
      ensures o.Raised? ==> RecvLoop(old(State()), chunks[k..]) == (State(), RecvRaised)
      ensures o.Returned? && (o.received || ErrorTruthy(Error)) ==>
        RecvLoop(old(State()), chunks[k..]) == (State(), Got(o.received, o.rest))
      ensures o.Returned? && !o.received && !ErrorTruthy(Error) ==>
        o.rest == [] && RecvLoop(old(State()), chunks[k..]) == RecvLoop(State(), chunks[k + 1..])
    {
      ghost var before := State();
      o := Consume(chunks[k]);
      RecvLoopStep(before, chunks, k, State(), o);
    }

    /** `removeKeepAlive()`: a `Connection` header, if present, becomes `close`. */
    method RemoveKeepAlive()
      modifies this
      ensures "Connection" in Dicts.Keys(old(Headers)) ==>
        Dicts.Get(Headers, "Connection") == Some(Single("close"))
      ensures "Connection" !in Dicts.Keys(old(Headers)) ==> Headers == old(Headers)
      ensures forall k :: k != "Connection" ==> Dicts.Get(Headers, k) == Dicts.Get(old(Headers), k)
      ensures Dicts.Keys(Headers) == Dicts.Keys(old(Headers))
      ensures Fields() == old(Fields()).(headers := Headers) && Buffer == old(Buffer)
    {
      if "Connection" in Dicts.Keys(Headers) {
        Headers := Dicts.Put(Headers, "Connection", Single("close"));
      }
    }

    /** `forceConnectionClose()`: `Connection: close` is set, added at the end if absent. */
    method ForceConnectionClose()
      modifies this
      ensures Dicts.Get(Headers, "Connection") == Some(Single("close"))
      ensures forall k :: k != "Connection" ==> Dicts.Get(Headers, k) == Dicts.Get(old(Headers), k)
      ensures Dicts.Keys(Headers) == if "Connection" in Dicts.Keys(old(Headers)) then Dicts.Keys(old(Headers))
                                     else Dicts.Keys(old(Headers)) + ["Connection"]
      ensures Fields() == old(Fields()).(headers := Headers) && Buffer == old(Buffer)
    {
      Headers := Dicts.Put(Headers, "Connection", Single("close"));
    }

    /** `headersAsText()`: the header lines in dict order, joined and ended by CRLF. */
    method HeadersAsText() returns (t: string)
      ensures t == Text.JoinWith(HeaderTextLines(Headers), "\r\n") + "\r\n"
    {
      var out := TextLinesOf(Headers);
      return Text.JoinWith(out, "\r\n") + "\r\n";
    }
  }
}
