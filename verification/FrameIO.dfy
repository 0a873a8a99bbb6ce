/** The frame encoder and decoder as the program runs them: on top of the coalescer and the sealed
    framing, and on a bare transport. */
module FrameIO {
  import opened Bytes
  import opened Io
  import opened Codec
  import C = Coalesce
  import F = FrameCiphers
  import X = Crypto
  import L = Links
  import opened Coalescers

  /** Lays a frame out in one buffer. */
  method Build(f: Frame) returns (buf: bytes)
    requires |f.payload| <= MAX_PAYLOAD
    ensures buf == Encode(f)
  {
    var a := new byte[HEADER_SIZE + |f.payload|];
    a[0], a[1] := f.version, f.ftype;
    StoreU32(a, 2, f.streamID);
    StoreU16(a, 6, |f.payload|);
    assert a[..HEADER_SIZE] == Header(f) by {
      assert a[..2] == [f.version, f.ftype];
      assert a[2..6] == PutU32(f.streamID);
      assert a[6..8] == PutU16(|f.payload|);
    }
    hide PutU16, PutU32, Header;
    forall i | 0 <= i < |f.payload| {
      a[HEADER_SIZE + i] := f.payload[i];
    }
    buf := a[..];
    assert buf[..HEADER_SIZE] == Header(f);
    assert buf[HEADER_SIZE..] == f.payload;
  }

  class Encoder {
    const w: CoalescingConn

    constructor (w: CoalescingConn)
      ensures this.w == w
    {
      this.w := w;
    }

    /** The direction of the tunnel that this encoder feeds, before a receiver that has read nothing
        (no sending step depends on what it has read). */
    ghost function Outgoing(): L.Link
      reads w, w.inner.session, w.inner.outbound
    {
      L.Sealed(w.View(), w.inner.session.send, X.Rx(X.CipherState(0, 0), [], w.inner.outbound.data, false))
    }

    twostate lemma Untouched()
      requires w.View() == old(w.View()) && w.inner.session.send == old(w.inner.session.send)
      requires w.inner.outbound.data == old(w.inner.outbound.data)
      ensures Outgoing() == old(Outgoing())
    {
    }

    method WriteFrame(f: Frame, draw: nat, stopped: bool) returns (error: Option<Error>)
      requires w.Valid()
      modifies w, w.inner.session`send, w.inner.outbound
      ensures w.Valid()
      ensures L.Shipped(Outgoing(), error) == L.SendFrame(old(Outgoing()), f, draw, stopped)
    {
      hide Encode, C.Write;
      if |f.payload| > MAX_PAYLOAD {
        return Some(PayloadTooLong);
      }
      var buf := Build(f);
      var n;
      n, error := w.Write(buf, draw, stopped);
    }
  }

  class Decoder {
    const r: F.FrameCipher
    const header: array<byte>

    constructor (r: F.FrameCipher)
      ensures this.r == r && fresh(header) && header.Length == HEADER_SIZE
    {
      this.r := r;
      header := new byte[HEADER_SIZE];
    }

    method ReadFrame() returns (frame: Option<Frame>, error: Option<Error>)
      requires r.Valid() && header.Length == HEADER_SIZE
      modifies r`readBuf, r.session`recv, r.inbound, header
      ensures L.ReadFrame(old(r.Rx())) == L.Received(frame, error, r.Rx())
    {
      hide X.ReadFull;
      var n, e := r.Fill(header);
      if e.Some? {
        return None, e;
      }
      var h := header[..];
      assert h == header[..HEADER_SIZE];
      if h[0] != PROTOCOL_VERSION {
        return None, Some(UnsupportedVersion);
      }
      var payload := new byte[GetU16(h[6..8])];
      n, e := r.Fill(payload);
      if e.Some? {
        return None, Some(PayloadRead(e.value));
      }
      assert payload[..] == payload[..payload.Length];
      return Some(Frame(h[0], h[1], GetU32(h[2..6]), payload[..])), None;
    }
  }

  /** The same decoder on a bare transport, whose reads may return any number of bytes. */
  class BareDecoder {
    const r: Wire
    const header: array<byte>

    constructor (r: Wire)
      ensures this.r == r && fresh(header) && header.Length == HEADER_SIZE
    {
      this.r := r;
      header := new byte[HEADER_SIZE];
    }

    method ReadFrame() returns (frame: Option<Frame>, error: Option<Error>)
      requires r.end == EOF && header.Length == HEADER_SIZE
      modifies r, header
      ensures match DecodeOne(old(r.data))
              case Got(f, rest) => frame == Some(f) && error == None && r.data == rest
              case NoBytes => frame == None && error == Some(EOF)
              case ShortHeader => frame == None && error == Some(UnexpectedEOF)
              case BadVersion => frame == None && error == Some(UnsupportedVersion)
              case ShortPayload =>
                && frame == None
                && error == Some(PayloadRead(if |old(r.data)| == HEADER_SIZE then EOF else UnexpectedEOF))
    {
      ghost var s := r.data;
      var n, e := ReadFull(r, header);
      if e.Some? {
        return None, e;
      }
      var h := header[..];
      assert h == header[..HEADER_SIZE] == s[..HEADER_SIZE];
      assert h[6..8] == s[6..8] && h[2..6] == s[2..6];
      if h[0] != PROTOCOL_VERSION {
        return None, Some(UnsupportedVersion);
      }
      var payload := new byte[GetU16(h[6..8])];
      n, e := ReadFull(r, payload);
      if e.Some? {
        return None, Some(PayloadRead(e.value));
      }
      assert payload[..] == payload[..payload.Length];
      ghost var end := HEADER_SIZE + payload.Length;
      assert payload[..] == s[HEADER_SIZE..end] && r.data == s[end..];
      return Some(Frame(h[0], h[1], GetU32(h[2..6]), payload[..])), None;
    }
  }
}
