/** The multiplexer frame, its wire format, and the laws of printing and parsing frames. */
module Codec {
  import opened Bytes

  const HEADER_SIZE := 8
  const MAX_PAYLOAD := 65535
  const PROTOCOL_VERSION: byte := 1

  const TYPE_DATA: byte := 0
  const TYPE_STREAM_OPEN: byte := 2
  const TYPE_STREAM_CLOSE: byte := 3
  const TYPE_PING: byte := 4
  const TYPE_PADDING: byte := 5
  const TYPE_PONG: byte := 7

  datatype Frame = Frame(version: byte, ftype: byte, streamID: u32, payload: bytes)

  /** A frame as every sender of this protocol builds it. */
  predicate Valid(f: Frame) {
    f.version == PROTOCOL_VERSION && |f.payload| <= MAX_PAYLOAD
  }

  predicate AllValid(fs: seq<Frame>) {
    forall i :: 0 <= i < |fs| ==> Valid(fs[i])
  }

  // ---------- Printing ----------

  function Header(f: Frame): (h: bytes)
    requires |f.payload| <= MAX_PAYLOAD
    ensures |h| == HEADER_SIZE
  {
    [f.version, f.ftype] + PutU32(f.streamID) + PutU16(|f.payload|)
  }

  function Encode(f: Frame): (s: bytes)
    requires |f.payload| <= MAX_PAYLOAD
    ensures |s| == HEADER_SIZE + |f.payload|
  {
    Header(f) + f.payload
  }

  function EncodeAll(fs: seq<Frame>): bytes
    requires AllValid(fs)
  {
    if fs == [] then [] else Encode(fs[0]) + EncodeAll(fs[1..])
  }

  // ---------- Parsing ----------

  datatype Decoded =
    | Got(frame: Frame, rest: bytes)
    | NoBytes            // the reader ended before the header
    | ShortHeader        // the reader ended inside the header
    | BadVersion         // the header announces another protocol version
    | ShortPayload       // the reader ended inside the payload

  /** Parses the frame at the front of everything the reader will ever deliver. */
  function DecodeOne(s: bytes): (d: Decoded)
    ensures d.Got? ==> |d.rest| < |s|
  {
    if s == [] then NoBytes
    else if |s| < HEADER_SIZE then ShortHeader
    else if s[0] != PROTOCOL_VERSION then BadVersion
    else
      var end := HEADER_SIZE + GetU16(s[6..8]);
      if |s| < end then ShortPayload
      else Got(Frame(s[0], s[1], GetU32(s[2..6]), s[HEADER_SIZE..end]), s[end..])
  }

  /** The frames a reader of `s` obtains before its first error. */
  function DecodeAll(s: bytes): seq<Frame>
    decreases |s|
  {
    match DecodeOne(s)
    case Got(f, rest) => [f] + DecodeAll(rest)
    case _ => []
  }

  /** Parsing `s` stops exactly at its end, with no frame left half read. */
  predicate Complete(s: bytes)
    decreases |s|
  {
    match DecodeOne(s)
    case Got(_, rest) => Complete(rest)
    case e => e == NoBytes
  }

  // ---------- One frame ----------

  lemma DecodeEncode(f: Frame, x: bytes)
    requires Valid(f)
    ensures DecodeOne(Encode(f) + x) == Got(f, x)
  {
    var s := Encode(f) + x;
    U32RoundTrip(f.streamID, PutU32(0));
    U16RoundTrip(|f.payload|, PutU16(0));
    assert s[2..6] == PutU32(f.streamID);
    assert s[6..8] == PutU16(|f.payload|);
    var end := HEADER_SIZE + |f.payload|;
    assert s[HEADER_SIZE..end] == f.payload;
    assert s[end..] == x;
  }

  lemma EncodeDecode(s: bytes)
    requires DecodeOne(s).Got?
    ensures Valid(DecodeOne(s).frame)
    ensures s == Encode(DecodeOne(s).frame) + DecodeOne(s).rest
  {
    var f := DecodeOne(s).frame;
    U32RoundTrip(0, s[2..6]);
    U16RoundTrip(0, s[6..8]);
    assert Header(f) == s[..8] by {
      assert s[..8] == [s[0], s[1]] + s[2..6] + s[6..8];
    }
    assert s == s[..8] + s[8..8 + |f.payload|] + s[8 + |f.payload|..];
  }

  /** The layout on the wire: version, type, four bytes of stream id and two of length, most significant
      byte first, and then the payload. */
  lemma Layout(f: Frame)
    requires Valid(f)
    ensures var s := Encode(f);
            && s[0] == 1 && s[1] == f.ftype
            && ((s[2] as int * 0x100 + s[3] as int) * 0x100 + s[4] as int) * 0x100 + s[5] as int == f.streamID
            && s[6] as int * 0x100 + s[7] as int == |f.payload|
            && s[8..] == f.payload
  {
    var s := Encode(f);
    BigEndian(|f.payload|, f.streamID);
    assert s[2..6] == PutU32(f.streamID);
    assert s[6..8] == PutU16(|f.payload|);
  }

  // ---------- Frame lists ----------

  lemma {:induction false} EncodeAllAppend(fs: seq<Frame>, gs: seq<Frame>)
    requires AllValid(fs) && AllValid(gs)
    ensures EncodeAll(fs + gs) == EncodeAll(fs) + EncodeAll(gs)
  {
    if fs == [] {
      assert fs + gs == gs;
    } else {
      EncodeAllAppend(fs[1..], gs);
      assert (fs + gs)[1..] == fs[1..] + gs;
    }
  }

  lemma EncodeAllOne(f: Frame)
    requires Valid(f)
    ensures EncodeAll([f]) == Encode(f)
  {
  }

  /** Round trip: a reader of the printed frames gets those frames back and nothing else. */
  lemma {:induction false} DecodeAllEncodeAll(fs: seq<Frame>)
    requires AllValid(fs)
    ensures DecodeAll(EncodeAll(fs)) == fs
    ensures Complete(EncodeAll(fs))
  {
    if fs != [] {
      DecodeEncode(fs[0], EncodeAll(fs[1..]));
      DecodeAllEncodeAll(fs[1..]);
    }
  }

  /** The other direction: bytes that parse to their end are the print of what was parsed. */
  lemma {:induction false} EncodeAllDecodeAll(s: bytes)
    requires Complete(s)
    ensures AllValid(DecodeAll(s))
    ensures EncodeAll(DecodeAll(s)) == s
    decreases |s|
  {
    match DecodeOne(s)
    case Got(f, rest) =>
      EncodeDecode(s);
      EncodeAllDecodeAll(rest);
      assert DecodeAll(s)[1..] == DecodeAll(rest);
    case _ =>
  }

  /** The byte strings that parse to their end are exactly the prints of frame lists. */
  lemma CompleteIffPrinted(s: bytes)
    ensures Complete(s) <==> exists fs :: AllValid(fs) && EncodeAll(fs) == s
  {
    if Complete(s) {
      EncodeAllDecodeAll(s);
    }
    if fs :| AllValid(fs) && EncodeAll(fs) == s {
      DecodeAllEncodeAll(fs);
    }
  }

  lemma DecodeFrameThen(f: Frame, x: bytes)
    requires Valid(f)
    ensures DecodeAll(Encode(f) + x) == [f] + DecodeAll(x)
    ensures Complete(Encode(f) + x) <==> Complete(x)
  {
    DecodeEncode(f, x);
  }

  lemma {:induction false} DecodeFramesThen(fs: seq<Frame>, x: bytes)
    requires AllValid(fs)
    ensures DecodeAll(EncodeAll(fs) + x) == fs + DecodeAll(x)
    ensures Complete(EncodeAll(fs) + x) <==> Complete(x)
  {
    hide DecodeAll, Complete, DecodeOne;
    if fs == [] {
      assert EncodeAll(fs) + x == x;
    } else {
      var tail := EncodeAll(fs[1..]);
      assert EncodeAll(fs) + x == Encode(fs[0]) + (tail + x);
      DecodeFrameThen(fs[0], tail + x);
      DecodeFramesThen(fs[1..], x);
      assert fs + DecodeAll(x) == [fs[0]] + (fs[1..] + DecodeAll(x));
    }
  }

  lemma DecodeAllAppend(s: bytes, t: bytes)
    requires Complete(s)
    ensures DecodeAll(s + t) == DecodeAll(s) + DecodeAll(t)
    ensures Complete(s + t) <==> Complete(t)
  {
    EncodeAllDecodeAll(s);
    DecodeFramesThen(DecodeAll(s), t);
  }

  lemma DecodeAllFrame(f: Frame)
    requires Valid(f)
    ensures DecodeAll(Encode(f)) == [f] && Complete(Encode(f))
  {
    EncodeAllOne(f);
    DecodeAllEncodeAll([f]);
  }

  /** No print of frames is an ambiguous prefix of another: if the print of `fs` begins the
      print of `gs`, then `fs` begins `gs`, and what follows is the print of the other frames. */
  lemma UniqueDecoding(fs: seq<Frame>, gs: seq<Frame>, x: bytes)
    requires AllValid(fs) && AllValid(gs)
    requires EncodeAll(fs) + x == EncodeAll(gs)
    ensures fs <= gs
    ensures x == EncodeAll(gs[|fs|..])
  {
    DecodeAllEncodeAll(fs);
    DecodeAllEncodeAll(gs);
    DecodeAllAppend(EncodeAll(fs), x);
    EncodeAllDecodeAll(x);
    assert gs == fs + DecodeAll(x);
    assert gs[|fs|..] == DecodeAll(x);
  }

  /** Bytes used on the wire by a list of frames. */
  function WireSize(fs: seq<Frame>): nat {
    if fs == [] then 0 else HEADER_SIZE + |fs[0].payload| + WireSize(fs[1..])
  }

  /** Reading `n` frames consumes exactly the eight header bytes and the payload of each. */
  lemma {:induction false} BytesConsumed(fs: seq<Frame>, n: nat)
    requires AllValid(fs) && n <= |fs|
    ensures WireSize(fs[..n]) <= |EncodeAll(fs)|
    ensures EncodeAll(fs)[WireSize(fs[..n])..] == EncodeAll(fs[n..])
  {
    if n > 0 {
      BytesConsumed(fs[1..], n - 1);
      var whole, tail := EncodeAll(fs), EncodeAll(fs[1..]);
      assert fs[..n][1..] == fs[1..][..n - 1];
      assert fs[1..][n - 1..] == fs[n..];
      var k := WireSize(fs[1..][..n - 1]);
      assert whole == Encode(fs[0]) + tail;
      assert whole[|Encode(fs[0])| + k..] == tail[k..];
    } else {
      assert fs[..n] == [];
    }
  }
}
