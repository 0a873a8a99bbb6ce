/** The tunnel's handshake handler: it probes the request body for a length-prefixed message and,
    unless authentication succeeds, hands the request on as if it had never been touched. */
module Handshake {
  import opened Bytes
  import opened Io

  const MAX_HANDSHAKE := 4096

  // ---------- Length-prefixed messages ----------

  datatype Parsed =
    | Message(payload: bytes)
    | TooShort
    | Empty
    | Truncated
    | SliceOutOfRange   // the program indexes outside its buffer

  /** The message at the front of a buffer. The end of the slice is computed in 16 bits. */
  function ParseLengthPrefixed(buf: bytes): Parsed {
    if |buf| < 2 then TooShort
    else
      var n := GetU16(buf[..2]);
      if n == 0 then Empty
      else if n > |buf| - 2 then Truncated
      else
        var end := (2 + n) % 0x1_0000;
        if end < 2 then SliceOutOfRange else Message(buf[2..end])
  }

  datatype ReadMessage = Got(payload: bytes, rest: bytes) | Failed

  /** The message a reader obtains from everything that will arrive. */
  function ReadLengthPrefixed(s: bytes): ReadMessage {
    if |s| < 2 then Failed
    else
      var n := GetU16(s[..2]);
      if n == 0 || |s| < 2 + n then Failed else Got(s[2..2 + n], s[2 + n..])
  }

  /** What the writer puts on the wire; None if it refuses the message. */
  function WriteLengthPrefixed(msg: bytes): Option<bytes> {
    if |msg| > 65535 then None else Some(PutU16(|msg|) + msg)
  }

  /** The reader inverts the writer, leaving the bytes that follow, exactly for messages that are
      neither empty nor too long. */
  lemma ReadInvertsWrite(msg: bytes, x: bytes)
    ensures WriteLengthPrefixed(msg).Some? <==> |msg| <= 65535
    ensures WriteLengthPrefixed(msg).Some? ==>
              (ReadLengthPrefixed(WriteLengthPrefixed(msg).value + x) == Got(msg, x) <==> msg != [])
  {
  }

  /** The buffer parser agrees with the reader, except on messages of 65534 and 65535 bytes, where
      its 16-bit slice end wraps. */
  lemma ParserAgreesExactlyBelowWrap(buf: bytes)
    ensures ParseLengthPrefixed(buf) == SliceOutOfRange <==>
              ReadLengthPrefixed(buf).Got? && |ReadLengthPrefixed(buf).payload| >= 65534
    ensures ParseLengthPrefixed(buf) != SliceOutOfRange ==>
              (ParseLengthPrefixed(buf).Message? <==> ReadLengthPrefixed(buf).Got?)
              && (ReadLengthPrefixed(buf).Got? ==>
                    ParseLengthPrefixed(buf).payload == ReadLengthPrefixed(buf).payload)
  {
  }

  /** A concrete buffer on which the parser goes out of range: 65534 zero bytes with their prefix. */
  lemma ParserWraps()
    ensures var msg := seq(65534, _ => 0 as byte);
            && ReadLengthPrefixed(PutU16(65534) + msg) == Got(msg, [])
            && ParseLengthPrefixed(PutU16(65534) + msg) == SliceOutOfRange
  {
  }

  // ---------- Bodies ----------

  /** Taking `n` bytes off the first part. */
  lemma Consumed(parts: seq<bytes>, n: nat, rest: bytes)
    requires parts != [] && n <= |parts[0]|
    ensures parts[0][..n] + (Concat([parts[0][n..]] + parts[1..]) + rest) == Concat(parts) + rest
  {
    var first, others := parts[0], Concat(parts[1..]);
    assert ([first[n..]] + parts[1..])[1..] == parts[1..];
    hide Concat;
    assert first == first[..n] + first[n..];
    Regroup(first[..n], first[n..], others, rest);
  }

  lemma Regroup(a: bytes, b: bytes, c: bytes, d: bytes)
    ensures a + ((b + c) + d) == ((a + b) + c) + d
  {
  }

  function FirstPiece(parts: seq<bytes>): bytes {
    if parts == [] then [] else if parts[0] != [] then parts[0] else FirstPiece(parts[1..])
  }

  /** Readers one after the other: bytes already taken from a wire, then the wire. */
  class Body {
    var parts: seq<bytes>
    const wire: Wire

    constructor (parts: seq<bytes>, wire: Wire)
      ensures this.parts == parts && this.wire == wire
    {
      this.parts, this.wire := parts, wire;
    }

    /** The piece that is read next: the first that has bytes left. */
    ghost function Next(): bytes
      reads this
    {
      FirstPiece(parts)
    }

    /** Everything a reader of this body will get. */
    ghost function Remaining(): bytes
      reads this, wire
    {
      Concat(parts) + wire.data
    }

    /** One read: from the first part that has bytes left, as many as fit, else from the wire. */
    method Read(p: array<byte>) returns (n: nat, error: Option<Error>)
      requires p.Length > 0
      modifies this`parts, wire`data, p
      ensures n <= p.Length
      ensures old(Next()) != [] ==> n == Min(p.Length, |old(Next())|) && wire.data == old(wire.data)
      ensures p[..n] + Remaining() == old(Remaining())
      ensures error.Some? <==> old(Remaining()) == []
      ensures error.Some? ==> error == Some(wire.end) && n == 0
      ensures error.None? ==> n > 0
    {
      while parts != [] && parts[0] == []
        invariant Concat(parts) == old(Concat(parts)) && wire.data == old(wire.data)
        invariant Next() == old(Next())
        decreases |parts|
      {
        parts := parts[1..];
      }
      if parts != [] {
        n := Min(p.Length, |parts[0]|);
        ghost var whole := parts;
        forall i | 0 <= i < n {
          p[i] := parts[0][i];
        }
        assert p[..n] == whole[0][..n];
        parts := [parts[0][n..]] + parts[1..];
        Consumed(whole, n, wire.data);
        error := None;
      } else {
        n, error := wire.Read(p, 0);
        assert p[..n] == old(wire.data)[..n];
        assert Remaining() == wire.data;
      }
    }
  }

  // ---------- The handler ----------

  /** The authentication callback: it may accept or reject, answer anything, and open a tunnel or not.
      It keeps what it was asked, and what it did last. */
  class Auth {
    var calls: seq<bytes>
    var accepted: bool
    var answer: bytes
    var hasTunnel: bool

    constructor ()
      ensures calls == []
    {
      calls := [];
    }

    method OnAuth(msg: bytes) returns (ok: bool, resp: bytes, tunnel: bool)
      modifies this
      ensures calls == old(calls) + [msg]
      ensures accepted == ok && answer == resp && hasTunnel == tunnel
    {
      calls := calls + [msg];
      ok, resp, tunnel := *, *, *;
      accepted, answer, hasTunnel := ok, resp, tunnel;
    }
  }

  datatype Outcome =
    | Fallback(body: Body)   // the fallback handler serves the request with this body
    | ReplyRefused           // the reply was too long to write; the tunnel is closed again
    | ReplyFailed            // the reply could not be written to its end; so is it here
    | NoTunnel               // the reply was written, there is nothing to bridge
    | Bridged(ended: Ended)  // the reply was written, and bodies were copied until one copy ended

  /** How the bridge ended: the request's body was copied to its end, or the tunnel's answer was, or a
      write failed. */
  datatype Ended = UpToTheEnd | DownToTheEnd | WriteFailed

  /** One direction of a copy: reads a chunk and writes it. */
  method CopyChunk(from: Wire, to: Wire, buf: array<byte>) returns (ended: bool, ok: bool, moved: bytes)
    requires from != to && buf.Length > 0
    modifies from`data, to, buf
    ensures to.data == old(to.data) + moved && moved <= old(from.data)
    ensures to.failures == old(to.failures) + if ok then 0 else 1
    ensures ok ==> old(from.data) == moved + from.data
    ensures ended ==> ok && from.data == []
    ensures ok && !ended ==> |from.data| < |old(from.data)|
  {
    var n, e := from.Read(buf, 0);
    moved := [];
    if e.Some? {
      assert to.data + [] == to.data;
      return true, true, moved;
    }
    assert buf[..n] == old(from.data)[..n];
    var k;
    k, ok := to.TryWrite(buf[..n]);
    moved := buf[..n][..k];
    ended := false;
  }

  /** Copies both ways at once, until the first of the two copies ends. `up` and `down` are the bytes
      moved: always what came first, and everything if that side ended. */
  method Bridge(req: Wire, tunnel: Wire, answer: Wire, reply: Wire)
    returns (ended: Ended, ghost up: bytes, ghost down: bytes)
    requires req != tunnel && req != answer && req != reply
    requires tunnel != answer && tunnel != reply && answer != reply
    modifies req`data, tunnel, answer`data, reply
    ensures tunnel.data == old(tunnel.data) + up && up <= old(req.data)
    ensures reply.data == old(reply.data) + down && down <= old(answer.data)
    ensures ended.UpToTheEnd? ==> up == old(req.data)
    ensures ended.DownToTheEnd? ==> down == old(answer.data)
    ensures tunnel.failures + reply.failures ==
            old(tunnel.failures) + old(reply.failures) + if ended.WriteFailed? then 1 else 0
  {
    var upBuf, downBuf := new byte[32 * 1024], new byte[32 * 1024];
    up, down := [], [];
    while true
      invariant fresh(upBuf) && fresh(downBuf)
      invariant tunnel.data == old(tunnel.data) + up && old(req.data) == up + req.data
      invariant reply.data == old(reply.data) + down && old(answer.data) == down + answer.data
      invariant tunnel.failures == old(tunnel.failures) && reply.failures == old(reply.failures)
      decreases |req.data| + |answer.data|
    {
      var upFirst: bool := *;
      if upFirst {
        var e, ok, moved := CopyChunk(req, tunnel, upBuf);
        up := up + moved;
        if e || !ok {
          return if e then UpToTheEnd else WriteFailed, up, down;
        }
      } else {
        var e, ok, moved := CopyChunk(answer, reply, downBuf);
        down := down + moved;
        if e || !ok {
          return if e then DownToTheEnd else WriteFailed, up, down;
        }
      }
    }
  }

  /** Reads exactly what the length prefix announces. `taken` are the pieces read, in order. */
  method Probe(req: Wire) returns (msg: Option<bytes>, taken: seq<bytes>)
    modifies req`data
    ensures Concat(taken) + req.data == old(req.data)
    ensures var m := ReadLengthPrefixed(old(req.data));
            && (msg.Some? <==> m.Got? && |m.payload| <= MAX_HANDSHAKE)
            && (msg.Some? ==> msg.value == m.payload && req.data == m.rest)
  {
    ghost var all := req.data;
    var lenBuf := new byte[2];
    var nLen, lenErr := ReadFull(req, lenBuf);
    if lenErr.Some? || nLen < 2 {
      ConcatOne(lenBuf[..nLen]);
      return None, [lenBuf[..nLen]];
    }
    assert lenBuf[..] == lenBuf[..2] == all[..2];
    var declared := GetU16(lenBuf[..]);
    if declared == 0 || declared > MAX_HANDSHAKE {
      ConcatOne(lenBuf[..]);
      return None, [lenBuf[..]];
    }
    var msg1 := new byte[declared];
    var nMsg, msgErr := ReadFull(req, msg1);
    ConcatTwo(lenBuf[..], msg1[..nMsg]);
    assert lenBuf[..] + msg1[..nMsg] + req.data == all;
    if msgErr.Some? || nMsg < declared {
      return None, [lenBuf[..], msg1[..nMsg]];
    }
    assert msg1[..] == msg1[..nMsg] == all[2..2 + declared];
    return Some(msg1[..]), [lenBuf[..], msg1[..]];
  }

  /** writeLengthPrefixed: the prefix and the message in two writes, either of which may fail. */
  method WriteMessage(w: Wire, msg: bytes) returns (refused: bool, ok: bool)
    modifies w
    ensures refused <==> WriteLengthPrefixed(msg).None?
    ensures refused ==> !ok && w.data == old(w.data)
    ensures ok ==> w.data == old(w.data) + WriteLengthPrefixed(msg).value
    ensures w.failures == old(w.failures) + if refused || ok then 0 else 1
    ensures !refused ==> exists n :: Wrote(old(w.data), w.data, WriteLengthPrefixed(msg).value, n)
  {
    if |msg| > 65535 {
      return true, false;
    }
    ghost var whole := PutU16(|msg|) + msg;
    var n;
    n, ok := w.TryWrite(PutU16(|msg|));
    assert PutU16(|msg|)[..n] == whole[..n];
    assert Wrote(old(w.data), w.data, whole, n);
    if ok {
      var m;
      m, ok := w.TryWrite(msg);
      assert whole[..2 + m] == PutU16(|msg|) + msg[..m];
      assert Wrote(old(w.data), w.data, whole, 2 + m);
      assert ok ==> whole[..2 + m] == whole;
    }
    refused := false;
  }

  /** The first `n` bytes of `msg` were added. */
  predicate Wrote(before: bytes, after: bytes, msg: bytes, n: nat) {
    n <= |msg| && after == before + msg[..n]
  }

  /** Serves one request. On every branch that falls back the body handed on holds exactly the bytes of
      the request. The callback is asked at most once, with exactly the declared 1 to 4096 bytes.
      After success the client reads the callback's answer first, and then, if and only if the callback
      opened a tunnel, what the tunnel sends; the tunnel gets the bytes that follow the message, all of
      them if the request is copied to its end. A failure is reported exactly if a write failed.
      `up` and `down` are the bytes bridged. */
  method Handle(auth: Auth, req: Wire, reply: Wire, tunnel: Wire, answer: Wire)
    returns (out: Outcome, ghost up: bytes, ghost down: bytes)
    requires req != tunnel && req != answer && req != reply
    requires tunnel != answer && tunnel != reply && answer != reply
    modifies auth, req`data, reply, tunnel, answer`data
    ensures out.Fallback? ==>
              && out.body.wire == req && out.body.Remaining() == old(req.data)
              && reply.data == old(reply.data) && tunnel.data == old(tunnel.data)
    ensures var m := ReadLengthPrefixed(old(req.data));
            if m.Got? && |m.payload| <= MAX_HANDSHAKE
            then auth.calls == old(auth.calls) + [m.payload] && (out.Fallback? <==> !auth.accepted)
            else auth.calls == old(auth.calls) && out.Fallback?
    ensures !out.Fallback? ==>
              var m := ReadLengthPrefixed(old(req.data));
              && m.Got? && up <= m.rest && down <= old(answer.data)
              && tunnel.data == old(tunnel.data) + up
              && (out.ReplyRefused? <==> WriteLengthPrefixed(auth.answer).None?)
              && (out.ReplyRefused? ==> reply.data == old(reply.data))
              && (out.ReplyFailed? ==>
                    exists n :: Wrote(old(reply.data), reply.data, WriteLengthPrefixed(auth.answer).value, n))
              && (out.NoTunnel? || out.Bridged? ==>
                    reply.data == old(reply.data) + WriteLengthPrefixed(auth.answer).value + down)
              && (out.Bridged? ==> auth.hasTunnel) && (out.NoTunnel? ==> !auth.hasTunnel)
              && (!out.Bridged? ==> up == [] && down == [] && req.data == m.rest)
              && (out.Bridged? && out.ended.UpToTheEnd? ==> up == m.rest)
              && (out.Bridged? && out.ended.DownToTheEnd? ==> down == old(answer.data))
    ensures out.ReplyFailed? || (out.Bridged? && out.ended.WriteFailed?) <==>
            reply.failures + tunnel.failures > old(reply.failures) + old(tunnel.failures)
    ensures out.ReplyFailed? ==> reply.failures > old(reply.failures)
  {
    up, down := [], [];
    var msg, taken := Probe(req);
    if msg.None? {
      var body := new Body(taken, req);
      return Fallback(body), up, down;
    }
    var ok, resp, hasTunnel := auth.OnAuth(msg.value);
    if !ok {
      var body := new Body(taken, req);
      return Fallback(body), up, down;
    }
    var refused, written := WriteMessage(reply, resp);
    if refused {
      return ReplyRefused, up, down;
    }
    if !written {
      return ReplyFailed, up, down;
    }
    if !hasTunnel {
      return NoTunnel, up, down;
    }
    var ended;
    ended, up, down := Bridge(req, tunnel, answer, reply);
    return Bridged(ended), up, down;
  }

  lemma ConcatTwo<T>(a: seq<T>, b: seq<T>)
    ensures Concat([a, b]) == a + b
  {
    assert [a, b][1..] == [b];
    ConcatOne(b);
  }

  /** The client reads back the reply, whatever tunnel bytes follow it. */
  method ReadReply(r: Wire) returns (msg: Option<bytes>)
    modifies r
    ensures var m := ReadLengthPrefixed(old(r.data));
            && (msg.Some? <==> m.Got?)
            && (msg.Some? ==> msg.value == m.payload && r.data == m.rest)
  {
    var lenBuf := new byte[2];
    var n, e := ReadFull(r, lenBuf);
    if e.Some? {
      return None;
    }
    assert lenBuf[..] == lenBuf[..2];
    var length := GetU16(lenBuf[..]);
    if length == 0 {
      return None;
    }
    var buf := new byte[length];
    n, e := ReadFull(r, buf);
    if e.Some? {
      return None;
    }
    assert buf[..] == buf[..n];
    msg := Some(buf[..]);
  }
}
