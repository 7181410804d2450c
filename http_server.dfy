/**
  The response side of the old threaded server (webpie/old/HTTPServer2.py):
  the request handle with its socket record, the head `start_response`
  builds and the send of that head, the fixed error replies, and the
  Latin-1 facts that let text go out as bytes.
*/
module HttpServer {
  import opened Wrappers
  import Text
  import Decimal
  import Dicts
  import opened HttpHeader

  // ---------------------------------------------------------------------------
  // Bytes on the wire

  predicate IsLatin1(s: string)
  {
    forall i :: 0 <= i < |s| ==> s[i] as int < 256
  }

  /** `to_bytes` on text whose characters are all below 256. */
  function Encode(s: string): (b: Bytes)
    requires IsLatin1(s)
    ensures Decode(b) == s
  {
    seq(|s|, i requires 0 <= i < |s| => s[i] as int as byte)
  }

  const QueueFullText: string := "HTTP/1.1 503 Application queue is full\n\n"
  const NotFoundText: string := "HTTP/1.1 404 Not found\n\n"

  /** The line sent when the chosen servlet's queue refuses the request. */
  function QueueFull(): Bytes
  {
    assert IsLatin1(QueueFullText) by {
      forall i | 0 <= i < |QueueFullText| ensures QueueFullText[i] as int < 256 { }
    }
    Encode(QueueFullText)
  }

  /** The line sent when no servlet accepts the URI. */
  function NotFound(): Bytes
  {
    assert IsLatin1(NotFoundText) by {
      forall i | 0 <= i < |NotFoundText| ensures NotFoundText[i] as int < 256 { }
    }
    Encode(NotFoundText)
  }

  // ---------------------------------------------------------------------------
  // The response head

  /** `"%s: %s" % (h, v)`. */
  function FieldText(h: (string, string)): string
  {
    h.0 + ": " + h.1
  }

  /** The caller's header lines `start_response` keeps: every header not named `Connection`, in order. */
  function KeptLines(hs: seq<(string, string)>): (ls: seq<string>)
    ensures forall i :: 0 <= i < |hs| && hs[i].0 != "Connection" ==> FieldText(hs[i]) in ls
    ensures forall l :: l in ls ==> exists i :: 0 <= i < |hs| && hs[i].0 != "Connection" && l == FieldText(hs[i])
    ensures |ls| <= |hs|
  {
    if hs == [] then []
    else
      var init := hs[..|hs| - 1];
      var last := hs[|hs| - 1];
      var ls := KeptLines(init) + (if last.0 != "Connection" then [FieldText(last)] else []);
      assert forall i :: 0 <= i < |init| ==> init[i] == hs[i];
      ls
  }

  /** The lines of the response head: status line, kept headers, then `Connection: close`. */
  function ResponseLines(status: string, hs: seq<(string, string)>): seq<string>
  {
    ["HTTP/1.1 " + status] + KeptLines(hs) + ["Connection: close"]
  }

  /** `"\r\n".join(out) + "\r\n\r\n"`. */
  function ResponseHead(status: string, hs: seq<(string, string)>): (t: string)
    ensures Text.StartsWith(t, "HTTP/1.1 " + status + "\r\n")
    ensures var tail := "\r\n" + "Connection: close" + "\r\n\r\n"; |tail| <= |t| && t[|t| - |tail|..] == tail
  {
    var ls := ResponseLines(status, hs);
    assert ls[0] == "HTTP/1.1 " + status && ls[|ls| - 1] == "Connection: close";
    Text.JoinEnds(ls, "\r\n", "\r\n\r\n");
    Text.JoinWith(ls, "\r\n") + "\r\n\r\n"
  }

  /** No header other than one named `Connection` can print as `Connection: close`. */
  lemma OnlyConnectionPrintsClose(h: (string, string))
    requires h.0 != "Connection"
    ensures FieldText(h) != "Connection: close"
  {
    var t := FieldText(h);
    assert t[..|h.0|] == h.0 && t[|h.0|] == ':';
  }

  /**
    The head `start_response` builds announces `Connection: close` exactly
    once, as its last header line, whatever headers the caller passes.
  */
  lemma ConnectionCloseOnce(status: string, hs: seq<(string, string)>)
    ensures var ls := ResponseLines(status, hs);
      ls[|ls| - 1] == "Connection: close"
      && forall i :: 0 <= i < |ls| - 1 ==> ls[i] != "Connection: close"
  {
    var ls := ResponseLines(status, hs);
    var kept := KeptLines(hs);
    forall i | 0 <= i < |ls| - 1 ensures ls[i] != "Connection: close" {
      if i == 0 {
        assert ls[0][0] == 'H';
      } else {
        assert ls[i] == kept[i - 1];
        assert ls[i] in kept;
        var j :| 0 <= j < |hs| && hs[j].0 != "Connection" && ls[i] == FieldText(hs[j]);
        OnlyConnectionPrintsClose(hs[j]);
      }
    }
  }

  /** Text made of Latin-1 pieces is Latin-1. */
  lemma Latin1Concat(a: string, b: string)
    requires IsLatin1(a) && IsLatin1(b)
    ensures IsLatin1(a + b)
  {
    forall i | 0 <= i < |a + b| ensures (a + b)[i] as int < 256 {
      if i >= |a| {
        assert (a + b)[i] == b[i - |a|];
      }
    }
  }

  /** A join of Latin-1 parts with a Latin-1 separator is Latin-1. */
  lemma {:induction false} JoinLatin1(parts: seq<string>, sep: string)
    requires IsLatin1(sep) && forall p :: p in parts ==> IsLatin1(p)
    ensures IsLatin1(Text.JoinWith(parts, sep))
    decreases |parts|
  {
    if |parts| > 1 {
      assert parts[0] in parts;
      assert forall p :: p in parts[1..] ==> p in parts;
      JoinLatin1(parts[1..], sep);
      Latin1Concat(parts[0], sep);
      Latin1Concat(parts[0] + sep, Text.JoinWith(parts[1..], sep));
    } else if |parts| == 1 {
      assert parts[0] in parts;
    }
  }

  /** Headers whose names and values are Latin-1 text. */
  predicate Latin1Headers(hs: seq<(string, string)>)
  {
    forall h :: h in hs ==> IsLatin1(h.0) && IsLatin1(h.1)
  }

  /**
    The head `start_response` builds from a Latin-1 status and Latin-1
    headers is Latin-1 itself, so `to_bytes` carries it over byte for byte.
  */
  lemma HeadIsLatin1(status: string, hs: seq<(string, string)>)
    requires IsLatin1(status) && Latin1Headers(hs)
    ensures IsLatin1(ResponseHead(status, hs))
  {
    var crlf := "\r\n";
    assert IsLatin1(crlf) by {
      forall i | 0 <= i < |crlf| ensures crlf[i] as int < 256 { }
    }
    assert IsLatin1(": ") by {
      forall i | 0 <= i < |": "| ensures ": "[i] as int < 256 { }
    }
    var first := "HTTP/1.1 ";
    assert IsLatin1(first) by {
      forall i | 0 <= i < |first| ensures first[i] as int < 256 { }
    }
    var close := "Connection: close";
    assert IsLatin1(close) by {
      forall i | 0 <= i < |close| ensures close[i] as int < 256 { }
    }
    var kept := KeptLines(hs);
    forall l | l in kept ensures IsLatin1(l) {
      var i :| 0 <= i < |hs| && hs[i].0 != "Connection" && l == FieldText(hs[i]);
      assert hs[i] in hs;
      Latin1Concat(hs[i].0, ": ");
      Latin1Concat(hs[i].0 + ": ", hs[i].1);
    }
    Latin1Concat(first, status);
    var ls := ResponseLines(status, hs);
    forall l | l in ls ensures IsLatin1(l) {
      if l != first + status && l != close {
        assert l in kept;
      }
    }
    JoinLatin1(ls, crlf);
    var tail := "\r\n\r\n";
    assert IsLatin1(tail) by {
      forall i | 0 <= i < |tail| ensures tail[i] as int < 256 { }
    }
    Latin1Concat(Text.JoinWith(ls, crlf), tail);
  }

  // ---------------------------------------------------------------------------
  // The request handle

  /**
    One accepted connection: the client socket (what has been sent on it, and
    whether it is still open), the parsed header and body, and what
    `start_response` recorded.
  */
  class RequestHandle {
    var Header: HTTPHeader?
    var Body: Bytes
    var ResponseStatus: Option<string>
    var OutBuffer: string
    var Sent: seq<Bytes>
    var SockOpen: bool

    constructor()
      ensures Header == null && Body == [] && ResponseStatus.None? && OutBuffer == ""
      ensures Sent == [] && SockOpen
    {
      Header, Body, ResponseStatus, OutBuffer := null, [], None, "";
      Sent, SockOpen := [], true;
    }

    /** `Sock.sendall(data)`. */
    method SendAll(data: Bytes)
      requires SockOpen
      modifies this
      ensures Sent == old(Sent) + [data]
      ensures SockOpen && Header == old(Header) && Body == old(Body)
      ensures ResponseStatus == old(ResponseStatus) && OutBuffer == old(OutBuffer)
    {
      Sent := Sent + [data];
    }

    /** `close()`: the socket is closed once and dropped. */
    method Close()
      modifies this
      ensures !SockOpen && Sent == old(Sent) && Header == old(Header) && Body == old(Body)
      ensures ResponseStatus == old(ResponseStatus) && OutBuffer == old(OutBuffer)
    {
      SockOpen := false;
    }

    /**
      `start_response(status, headers)`: the first word of the status becomes
      `ResponseStatus` and the response head goes to `OutBuffer`; a status
      with no word at all raises `IndexError` (`ok` false) before anything is
      set.
    */
    method StartResponse(status: string, headers: seq<(string, string)>) returns (ok: bool)
      modifies this
      ensures ok <==> Text.FirstWord(status).Some?
      ensures ok ==> ResponseStatus == Text.FirstWord(status) && OutBuffer == ResponseHead(status, headers)
      ensures !ok ==> ResponseStatus == old(ResponseStatus) && OutBuffer == old(OutBuffer)
      ensures Header == old(Header) && Body == old(Body) && Sent == old(Sent) && SockOpen == old(SockOpen)
    {
      var word := Text.FirstWord(status);
      if word.None? {
        return false;
      }
      ResponseStatus := word;
      var out := ["HTTP/1.1 " + status];
      var i := 0;
      while i < |headers|
        invariant i <= |headers|
        invariant out == ["HTTP/1.1 " + status] + KeptLines(headers[..i])
      {
        assert headers[..i + 1][..i] == headers[..i];
        if headers[i].0 != "Connection" {
          out := out + [FieldText(headers[i])];
        }
        i := i + 1;
      }
      assert headers[..i] == headers;
      out := out + ["Connection: close"];
      OutBuffer := Text.JoinWith(out, "\r\n") + "\r\n\r\n";
      return true;
    }

    /**
      What `process` does once the application has returned: the head left
      in `OutBuffer` by `start_response`, if any, is sent as bytes.
    */
    method SendHead()
      requires SockOpen && IsLatin1(OutBuffer)
      modifies this
      ensures Sent == old(Sent) + (if old(OutBuffer) == "" then [] else [Encode(old(OutBuffer))])
      ensures SockOpen && Header == old(Header) && Body == old(Body)
      ensures ResponseStatus == old(ResponseStatus) && OutBuffer == old(OutBuffer)
    {
      if OutBuffer != "" {
        SendAll(Encode(OutBuffer));
      }
    }

    /**
      An application that calls `start_response` once, followed by the send
      of the head in `process`: when the status has a word, exactly one new
      message goes out, and it decodes to the head for that status and
      those headers. A status with no word raises inside the application,
      and nothing is sent.
    */
    method Respond(status: string, headers: seq<(string, string)>) returns (ok: bool)
      requires SockOpen && IsLatin1(status) && Latin1Headers(headers)
      modifies this
      ensures ok <==> Text.FirstWord(status).Some?
      ensures ok ==> ResponseStatus == Text.FirstWord(status) && OutBuffer == ResponseHead(status, headers)
      ensures ok ==> |Sent| == |old(Sent)| + 1 && Sent[..|old(Sent)|] == old(Sent)
      ensures ok ==> Decode(Sent[|Sent| - 1]) == ResponseHead(status, headers)
      ensures !ok ==> Sent == old(Sent) && ResponseStatus == old(ResponseStatus) && OutBuffer == old(OutBuffer)
      ensures SockOpen && Header == old(Header) && Body == old(Body)
    {
      ok := StartResponse(status, headers);
      if ok {
        HeadIsLatin1(status, headers);
        SendHead();
      }
    }
  }
}
