/**
  The request body reader of the old threaded server (`BodyFile` in
  webpie/old/HTTPServer2.py): a list of byte chunks already read with the
  header, then the client socket.

  Defects of the source, noted here: the server hands `BodyFile` a single `bytes`
  value (webpie/old/HTTPServer2.py lines 403 and 495), while `get_chunk`
  treats its buffer as a list of chunks (line 26); the model follows
  `get_chunk` and takes a list of chunks. `get_chunk` leaves `out` unbound
  when the buffer is empty and the socket is gone (lines 33-36), so a read
  that reaches that point raises `UnboundLocalError`; here that is `None`.
*/
module BodyFiles {
  import opened Wrappers
  import opened HttpHeader

  /**
    `sock.recv(n)` on a peer that has `stream` still to send: some of those
    bytes, at most `n`, and what is left; the empty result means the peer
    closed the connection.
  */
  method Recv(stream: Bytes, n: nat) returns (data: Bytes, left: Bytes)
    ensures stream == data + left
    ensures |data| <= n
    ensures data == [] <==> n == 0 || stream == []
  {
    if n == 0 || stream == [] {
      data, left := [], stream;
    } else {
      assert 1 <= n && 1 <= |stream|;
      var k :| 1 <= k <= n && k <= |stream|;
      data, left := stream[..k], stream[k..];
      assert stream == data + left;
    }
  }

  /** Some chunk of the list is empty; `get_chunk` hands it out as end of stream. */
  predicate EmptyChunkIn(chunks: seq<Bytes>)
  {
    exists i :: 0 <= i < |chunks| && chunks[i] == []
  }

  const MAXMSG: nat := 8192

  /** How many bytes `read(N)` asks for: `N`, by default the remaining length; `None` means all. */
  function Limit(N: Option<int>, remaining: Option<int>): Option<int>
  {
    if N.None? then remaining else N
  }

  /** A count below zero asks for nothing. */
  function Bound(k: int): nat
  {
    if k < 0 then 0 else k
  }

  class BodyFile {
    var Buffer: seq<Bytes>
    var Sock: Option<Bytes>
    var Remaining: Option<int>

    constructor(buf: seq<Bytes>, sock: Option<Bytes>, length: Option<int>)
      ensures Buffer == buf && Sock == sock && Remaining == length
    {
      Buffer, Sock, Remaining := buf, sock, length;
    }

    /** The bytes still to come: the buffered chunks, then what the socket holds. */
    function Available(): Bytes
      reads this
    {
      Concat(Buffer) + Sock.GetOr([])
    }

    /**
      `get_chunk(n)`: at most `n` bytes from the front of what is available,
      taken from the first buffered chunk while there is one, else from the
      socket; `None` is the `UnboundLocalError` of an empty buffer without a
      socket.
    */
    method GetChunk(n: nat) returns (r: Option<Bytes>)
      modifies this
      ensures r.None? <==> old(Buffer) == [] && old(Sock).None?
      ensures r.None? ==> Buffer == [] && Sock.None?
      ensures r.Some? ==> |r.value| <= n
      ensures r.Some? && n > 0 ==> old(Available()) == r.value + Available()
      ensures r == Some([]) ==> n == 0 || Sock.None? || (old(Buffer) != [] && old(Buffer)[0] == [])
      ensures EmptyChunkIn(Buffer) ==> EmptyChunkIn(old(Buffer))
      ensures Remaining == old(Remaining)
    {
      if Buffer != [] {
        var chunk := Buffer[0];
        var tail := Buffer[1..];
        TakeFromFront(Buffer, Sock.GetOr([]), n);
        if |chunk| > n {
          r := Some(chunk[..n]);
          Buffer := [chunk[n..]] + tail;
          EmptyChunkAfterCut(old(Buffer), chunk[n..]);
        } else {
          r := Some(chunk);
          Buffer := tail;
          EmptyChunkInTail(old(Buffer));
        }
      } else if Sock.Some? {
        assert Concat(Buffer) == [];
        var out, left := Recv(Sock.value, n);
        Sock := if out == [] then None else Some(left);
        r := Some(out);
      } else {
        r := None;
      }
    }

    /**
      `read(N)`: up to `N` bytes (by default the announced `Remaining`
      length, or everything when that is unknown), gathered chunk by chunk
      until the count is reached or an empty chunk signals the end.
    */
    method Read(N: Option<int>) returns (r: Option<Bytes>)
      modifies this
      ensures r.Some? ==> old(Available()) == r.value + Available()
      ensures r.Some? && Limit(N, old(Remaining)).Some? ==> |r.value| <= Bound(Limit(N, old(Remaining)).value)
      ensures r.Some? && (Limit(N, old(Remaining)).None? || |r.value| < Limit(N, old(Remaining)).value) ==>
        Sock.None? || EmptyChunkIn(old(Buffer))
      ensures r.Some? && old(Remaining).Some? ==> Remaining == Some(old(Remaining).value - |r.value|)
      ensures old(Remaining).None? ==> Remaining.None?
      ensures r.None? ==> Buffer == [] && Sock.None?
      ensures old(Buffer) == [] && old(Sock).None? && Bound(Limit(N, old(Remaining)).GetOr(1)) > 0 ==> r.None?
    {
      var limit := Limit(N, Remaining);
      var out: seq<Bytes> := [];
      var n := 0;
      var eof := false;
      while !eof && (limit.None? || n < limit.value)
        invariant old(Available()) == Concat(out) + Available()
        invariant n == |Concat(out)|
        invariant limit.Some? ==> n == 0 || n <= limit.value
        invariant eof ==> Sock.None? || EmptyChunkIn(old(Buffer))
        invariant EmptyChunkIn(Buffer) ==> EmptyChunkIn(old(Buffer))
        invariant Remaining == old(Remaining)
        invariant old(Buffer) == [] && old(Sock).None? ==> !eof && Buffer == [] && Sock.None?
        decreases |Available()|, if eof then 0 else 1
      {
        var ntoread: nat := if limit.None? then MAXMSG else limit.value - n;
        ghost var buffered := Buffer;
        var chunk := GetChunk(ntoread);
        if chunk.None? {
          return None;
        }
        if chunk.value == [] {
          eof := true;
          assert Sock.None? || EmptyChunkIn(buffered);
        } else {
          ConcatSnoc(out, chunk.value);
          Associative(Concat(out), chunk.value, Available());
          n := n + |chunk.value|;
          out := out + [chunk.value];
        }
      }
      var data := Concat(out);
      assert |data| == n;
      if Remaining.Some? {
        Remaining := Some(Remaining.value - |data|);
      }
      return Some(data);
    }
  }

  /** Taking `n` bytes, or the whole first chunk, from the front of the buffered chunks followed by `s`. */
  lemma TakeFromFront(chunks: seq<Bytes>, s: Bytes, n: nat)
    requires chunks != []
    ensures |chunks[0]| > n ==>
      Concat(chunks) + s == chunks[0][..n] + (Concat([chunks[0][n..]] + chunks[1..]) + s)
    ensures |chunks[0]| <= n ==> Concat(chunks) + s == chunks[0] + (Concat(chunks[1..]) + s)
  {
    var c := chunks[0];
    var x := Concat(chunks[1..]);
    if |c| > n {
      var cut := [c[n..]] + chunks[1..];
      assert cut[0] == c[n..] && cut[1..] == chunks[1..];
      CutRegroup(c, n, x, s);
    } else {
      Associative(c, x, s);
    }
  }

  lemma CutRegroup(c: Bytes, n: nat, x: Bytes, s: Bytes)
    requires n < |c|
    ensures (c + x) + s == c[..n] + ((c[n..] + x) + s)
  {
    assert c == c[..n] + c[n..];
  }

  lemma EmptyChunkAfterCut(chunks: seq<Bytes>, c: Bytes)
    requires chunks != [] && c != []
    ensures EmptyChunkIn([c] + chunks[1..]) ==> EmptyChunkIn(chunks)
  {
    if EmptyChunkIn([c] + chunks[1..]) {
      var i :| 0 <= i < |chunks| && ([c] + chunks[1..])[i] == [];
      assert chunks[i] == [];
    }
  }

  lemma EmptyChunkInTail(chunks: seq<Bytes>)
    requires chunks != []
    ensures EmptyChunkIn(chunks[1..]) ==> EmptyChunkIn(chunks)
  {
    if EmptyChunkIn(chunks[1..]) {
      var i :| 0 <= i < |chunks| - 1 && chunks[1..][i] == [];
      assert chunks[i + 1] == [];
    }
  }

  lemma {:induction false} ConcatSnoc(chunks: seq<Bytes>, c: Bytes)
    ensures Concat(chunks + [c]) == Concat(chunks) + c
  {
    if chunks == [] {
      assert chunks + [c] == [c];
      assert Concat([c]) == c + Concat([]);
    } else {
      assert (chunks + [c])[1..] == chunks[1..] + [c];
      ConcatSnoc(chunks[1..], c);
    }
  }
}
