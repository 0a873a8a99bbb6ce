/** Sealed framing: every write becomes one length-prefixed AEAD frame, every read opens frames
    in order. The AEAD is an ideal one with the interface of section 5.1 of the Noise Protocol
    Framework: a ciphertext is 16 bytes longer than its plaintext, opens only under the key and
    the nonce it was sealed with, and a failed opening leaves the nonce alone. */
module Crypto {
  import opened Bytes
  import opened Io

  const TAG_SIZE := 16
  const MAX_SEALED_PAYLOAD := 60 * 1024
  const MAX_NONCE: u64 := 0xFFFF_FFFF_FFFF_FFFF

  // ---------- The ideal cipher ----------

  function Tag(key: u64, nonce: u64): (t: bytes)
    ensures |t| == TAG_SIZE
  {
    PutU64(key) + PutU64(nonce)
  }

  function Seal(key: u64, nonce: u64, plain: bytes): (c: bytes)
    ensures |c| == |plain| + TAG_SIZE
  {
    plain + Tag(key, nonce)
  }

  function Open(key: u64, nonce: u64, c: bytes): Option<bytes> {
    if |c| >= TAG_SIZE && c[|c| - TAG_SIZE..] == Tag(key, nonce) then Some(c[..|c| - TAG_SIZE]) else None
  }

  /** A sealed plaintext opens under its own key and nonce, and under no others. */
  lemma OpenSeal(key: u64, nonce: u64, key': u64, nonce': u64, plain: bytes)
    ensures Open(key', nonce', Seal(key, nonce, plain)) ==
            if key == key' && nonce == nonce' then Some(plain) else None
  {
    var c := Seal(key, nonce, plain);
    assert c[|c| - TAG_SIZE..] == Tag(key, nonce);
    assert c[..|c| - TAG_SIZE] == plain;
    if Tag(key, nonce) == Tag(key', nonce') {
      assert Tag(key, nonce)[..8] == PutU64(key) && Tag(key, nonce)[8..] == PutU64(nonce);
      assert Tag(key', nonce')[..8] == PutU64(key') && Tag(key', nonce')[8..] == PutU64(nonce');
      PutU64Injective(key, key');
      PutU64Injective(nonce, nonce');
    }
  }

  // ---------- Cipher states and sessions ----------

  /** One direction's key and the nonce it will use next. */
  datatype CipherState = CipherState(key: u64, nonce: u64) {
    predicate Exhausted() {
      nonce == MAX_NONCE
    }

    function Next(): CipherState
      requires !Exhausted()
    {
      this.(nonce := nonce + 1)
    }

    /** The state after `n` successful operations. */
    function After(n: nat): CipherState
      requires nonce + n <= MAX_NONCE
    {
      this.(nonce := nonce + n)
    }
  }

  /** What a handshake leaves at one endpoint. */
  datatype Keys = Keys(send: CipherState, recv: CipherState)

  /** The handshake yields two states: the first is the initiator's sending state, the second the
      responder's. Each endpoint receives with the state its peer sends with. */
  function InitiatorKeys(first: CipherState, second: CipherState): Keys {
    Keys(first, second)
  }

  function ResponderKeys(first: CipherState, second: CipherState): Keys {
    Keys(second, first)
  }

  // ---------- Sealed frames ----------

  predicate Sealable(plain: bytes) {
    1 <= |plain| <= MAX_SEALED_PAYLOAD
  }

  function SealFrame(cs: CipherState, plain: bytes): (s: bytes)
    requires Sealable(plain)
    ensures |s| == 4 + |plain| + TAG_SIZE
  {
    PutU32(|plain| + TAG_SIZE) + Seal(cs.key, cs.nonce, plain)
  }

  datatype Opening =
    | Opened(plain: bytes, rest: bytes)
    | Refused(error: Error, rest: bytes)

  /** Takes the sealed frame at the front of the bytes the transport will deliver before it ends.
      `rest` is what the attempt leaves unread, whether or not it succeeds. */
  function OpenNext(cs: CipherState, wire: bytes): (o: Opening)
    ensures |o.rest| <= |wire|
    ensures o.Opened? ==> |o.rest| + |o.plain| < |wire| && !cs.Exhausted()
    ensures o.Refused? && o.error != EOF ==> |o.rest| < |wire|
    ensures o == Refused(EOF, []) <==> wire == []
  {
    if wire == [] then Refused(EOF, [])
    else if |wire| < 4 then Refused(UnexpectedEOF, [])
    else
      var length := GetU32(wire[..4]);
      if length == 0 then Refused(ZeroLengthFrame, wire[4..])
      else if length > MAX_SEALED_PAYLOAD + 64 then Refused(FrameTooLong, wire[4..])
      else if |wire| < 4 + length then Refused(ShortCiphertext, [])
      else if cs.Exhausted() then Refused(NonceExhausted, wire[4 + length..])
      else
        match Open(cs.key, cs.nonce, wire[4..4 + length])
        case Some(plain) => Opened(plain, wire[4 + length..])
        case None => Refused(DecryptFailed, wire[4 + length..])
  }

  /** Any sealed frame at the front of the wire is taken whole; it is accepted exactly when it was
      sealed under the receiver's key and next nonce. */
  lemma OpenSealedFrame(cs: CipherState, sealer: CipherState, plain: bytes, x: bytes)
    requires Sealable(plain) && !cs.Exhausted()
    ensures OpenNext(cs, SealFrame(sealer, plain) + x) ==
            if cs == sealer then Opened(plain, x) else Refused(DecryptFailed, x)
  {
    var wire := SealFrame(sealer, plain) + x;
    var length := |plain| + TAG_SIZE;
    assert wire[..4] == PutU32(length);
    U32RoundTrip(length, PutU32(length));
    assert wire[4..4 + length] == Seal(sealer.key, sealer.nonce, plain);
    assert wire[4 + length..] == x;
    OpenSeal(sealer.key, sealer.nonce, cs.key, cs.nonce, plain);
  }

  lemma OpenExactlySeal(key: u64, nonce: u64, c: bytes, plain: bytes)
    ensures Open(key, nonce, c) == Some(plain) <==> c == Seal(key, nonce, plain)
  {
    OpenSeal(key, nonce, key, nonce, plain);
    if Open(key, nonce, c) == Some(plain) {
      assert c == c[..|c| - TAG_SIZE] + c[|c| - TAG_SIZE..];
    }
  }

  /** How a frame of any length is refused, and what it then leaves on the wire; it opens exactly if its
      bytes are the seal of the plaintext in the receiver's state. */
  lemma OpenNextByLength(cs: CipherState, length: u32, body: bytes, plain: bytes)
    ensures var o := OpenNext(cs, PutU32(length) + body);
            if length == 0 then o == Refused(ZeroLengthFrame, body)
            else if length > MAX_SEALED_PAYLOAD + 64 then o == Refused(FrameTooLong, body)
            else if |body| < length then o == Refused(ShortCiphertext, [])
            else if cs.Exhausted() then o == Refused(NonceExhausted, body[length..])
            else
              && (o == Opened(plain, body[length..]) <==> body[..length] == Seal(cs.key, cs.nonce, plain))
              && (o.Refused? ==> o == Refused(DecryptFailed, body[length..]))
  {
    hide Seal, Open;
    var wire := PutU32(length) + body;
    assert wire[..4] == PutU32(length);
    U32RoundTrip(length, PutU32(length));
    if length <= |body| {
      assert wire[4..4 + length] == body[..length] && wire[4 + length..] == body[length..];
      OpenExactlySeal(cs.key, cs.nonce, body[..length], plain);
    } else {
      assert wire[4..] == body;
    }
  }

  lemma OpenNextStable(cs: CipherState, wire: bytes, x: bytes)
    requires OpenNext(cs, wire).Opened?
    ensures OpenNext(cs, wire + x) == Opened(OpenNext(cs, wire).plain, OpenNext(cs, wire).rest + x)
  {
    var length := GetU32(wire[..4]);
    assert (wire + x)[..4] == wire[..4];
    assert (wire + x)[4..4 + length] == wire[4..4 + length];
    assert (wire + x)[4 + length..] == wire[4 + length..] + x;
  }

  /** The plaintexts that the bytes on the wire hold for a receiver in state `cs`. */
  function OpenAll(cs: CipherState, wire: bytes): seq<bytes>
    decreases |wire|
  {
    match OpenNext(cs, wire)
    case Opened(plain, rest) => [plain] + OpenAll(cs.Next(), rest)
    case Refused(_, _) => []
  }

  /** The wire holds whole frames, sealed one after the other for a receiver in state `cs`. */
  predicate Clean(cs: CipherState, wire: bytes)
    decreases |wire|
  {
    match OpenNext(cs, wire)
    case Opened(plain, rest) => Sealable(plain) && Clean(cs.Next(), rest)
    case Refused(_, _) => wire == []
  }

  lemma CleanOne(cs: CipherState, plain: bytes)
    requires Sealable(plain) && !cs.Exhausted()
    ensures Clean(cs, SealFrame(cs, plain)) && OpenAll(cs, SealFrame(cs, plain)) == [plain]
  {
    OpenSealedFrame(cs, cs, plain, []);
    assert SealFrame(cs, plain) + [] == SealFrame(cs, plain);
  }

  lemma {:induction false} CleanAppend(cs: CipherState, wire: bytes, plain: bytes)
    requires Clean(cs, wire) && Sealable(plain)
    requires cs.nonce + |OpenAll(cs, wire)| < MAX_NONCE
    ensures var wire' := wire + SealFrame(cs.After(|OpenAll(cs, wire)|), plain);
            Clean(cs, wire') && OpenAll(cs, wire') == OpenAll(cs, wire) + [plain]
    decreases |wire|
  {
    hide OpenNext, SealFrame;
    var x := SealFrame(cs.After(|OpenAll(cs, wire)|), plain);
    match OpenNext(cs, wire)
    case Opened(p, rest) =>
      OpenNextStable(cs, wire, x);
      CleanAppend(cs.Next(), rest, plain);
    case Refused(_, _) =>
      assert wire + x == x;
      CleanOne(cs, plain);
  }

  // ---------- Writing ----------

  datatype Sent = Sent(error: Option<Error>, cs: CipherState, onWire: bytes)

  /** One call of Write: the error returned, the sending state after it, the bytes put on the wire. */
  function Send(cs: CipherState, plain: bytes): Sent {
    if plain == [] then Sent(None, cs, [])
    else if |plain| > MAX_SEALED_PAYLOAD then Sent(Some(SealedTooLong), cs, [])
    else if cs.Exhausted() then Sent(Some(NonceExhausted), cs, [])
    else Sent(None, cs.Next(), SealFrame(cs, plain))
  }

  // ---------- Reading ----------

  /** The receiving half: its cipher state, the opened bytes not yet read, every byte the transport
      would still deliver, and whether this end has closed the transport, which then delivers
      nothing more. */
  datatype Rx = Rx(recv: CipherState, readBuf: bytes, wire: bytes, closed: bool) {
    /** Everything on its way to the reader. */
    function Readable(): bytes {
      readBuf + Concat(OpenAll(recv, wire))
    }

    /** What the reader can still obtain before an error. */
    function Pending(): bytes {
      if closed then readBuf else Readable()
    }

    /** The error after that. */
    function End(): Error {
      if closed then ClosedPipe else EOF
    }

    predicate Intact() {
      Clean(recv, wire)
    }

    function Flying(): nat {
      |OpenAll(recv, wire)|
    }
  }

  datatype Pulled = Pulled(got: bytes, error: Option<Error>, rx: Rx)

  /** One call of Read with a buffer of `n` bytes. */
  function Read(rx: Rx, n: nat): (r: Pulled)
    ensures |r.got| <= n
    ensures r.error.Some? ==> r.got == []
    ensures n > 0 && r.error.None? ==>
              |r.rx.readBuf| + |r.rx.wire| < |rx.readBuf| + |rx.wire|
  {
    if n == 0 then Pulled([], None, rx)
    else if rx.readBuf != [] then
      var k := Min(n, |rx.readBuf|);
      Pulled(rx.readBuf[..k], None, rx.(readBuf := rx.readBuf[k..]))
    else if rx.closed then Pulled([], Some(ClosedPipe), rx)
    else
      match OpenNext(rx.recv, rx.wire)
      case Refused(e, rest) => Pulled([], Some(e), rx.(wire := rest))
      case Opened(plain, rest) =>
        var k := Min(n, |plain|);
        Pulled(plain[..k], None, Rx(rx.recv.Next(), plain[k..], rest, false))
  }

  /** Reading until `n` bytes have come or an error: an end of stream after some bytes is reported
      as an unexpected end. */
  function ReadFull(rx: Rx, n: nat): (r: Pulled)
    ensures |r.got| <= n
    ensures r.error.None? ==> |r.got| == n
    decreases |rx.readBuf| + |rx.wire|
  {
    if n == 0 then Pulled([], None, rx)
    else
      var first := Read(rx, n);
      if first.error.Some? then first
      else
        var more := ReadFull(first.rx, n - |first.got|);
        Pulled(first.got + more.got,
               if more.error == Some(EOF) && first.got != [] then Some(UnexpectedEOF) else more.error,
               more.rx)
  }

  /** A write adds exactly its plaintext to what the receiver can read, or nothing if it is refused. */
  lemma SendIntact(cs: CipherState, rx: Rx, plain: bytes)
    requires rx.Intact() && cs.key == rx.recv.key && cs.nonce == rx.recv.nonce + rx.Flying()
    ensures var s := Send(cs, plain);
            var rx' := rx.(wire := rx.wire + s.onWire);
            && rx'.Intact() && s.cs.key == rx.recv.key && s.cs.nonce == rx.recv.nonce + rx'.Flying()
            && rx'.Readable() == rx.Readable() + (if s.error.None? then plain else [])
            && OpenAll(rx'.recv, rx'.wire) ==
               OpenAll(rx.recv, rx.wire) + if s.error.None? && plain != [] then [plain] else []
  {
    hide Clean, OpenAll, SealFrame, Concat;
    var flying := OpenAll(rx.recv, rx.wire);
    var s := Send(cs, plain);
    if s.onWire == [] {
      assert rx.wire + [] == rx.wire && rx.(wire := rx.wire) == rx;
      assert s.error.None? ==> plain == [];
      assert rx.Readable() + [] == rx.Readable();
      assert flying + [] == flying;
    } else {
      assert cs == rx.recv.After(|flying|);
      CleanAppend(rx.recv, rx.wire, plain);
      ConcatSnoc(flying, plain);
      assert rx.readBuf + (Concat(flying) + plain) == (rx.readBuf + Concat(flying)) + plain;
    }
  }

  /** On an intact wire one Read returns the next bytes, at least one if any can be obtained. It fills the
      caller's buffer or returns all that is open; and it opens a frame only if nothing is. */
  lemma ReadIntact(rx: Rx, n: nat)
    requires rx.Intact() && n > 0
    ensures var r := Read(rx, n);
            && r.rx.Intact()
            && (rx.Pending() != [] ==> r.error.None? && r.got != [])
            && (rx.Pending() == [] ==> r == Pulled([], Some(rx.End()), rx))
            && (rx.Pending() != [] ==> |r.got| == n || r.rx.readBuf == [])
            && (rx.readBuf != [] ==> r.rx.recv == rx.recv && r.rx.wire == rx.wire)
            && (rx.readBuf == [] && r.error.None? ==> r.rx.recv == rx.recv.Next())
            && rx.Readable() == r.got + r.rx.Readable()
            && rx.Pending() == r.got + r.rx.Pending()
            && r.rx.recv.key == rx.recv.key && r.rx.closed == rx.closed
            && r.rx.recv.nonce + r.rx.Flying() == rx.recv.nonce + rx.Flying()
  {
    hide OpenNext;
    var r := Read(rx, n);
    if rx.readBuf != [] {
      assert rx.readBuf == r.got + r.rx.readBuf;
      assert rx.Readable() == r.got + r.rx.Readable();
    } else if !rx.closed {
      match OpenNext(rx.recv, rx.wire)
      case Refused(_, _) =>
      case Opened(plain, rest) =>
        assert plain == r.got + r.rx.readBuf;
        var later := OpenAll(rx.recv.Next(), rest);
        assert OpenAll(rx.recv, rx.wire)[1..] == later;
        assert Concat(OpenAll(rx.recv, rx.wire)) == plain + Concat(later);
        assert rx.Readable() == r.got + r.rx.Readable();
    }
  }

  /** On an intact wire ReadFull returns exactly the next `n` bytes that can be obtained, however the
      sealed frames cut them. */
  lemma {:induction false} ReadFullIntact(rx: Rx, n: nat)
    requires rx.Intact() && n <= |rx.Pending()|
    ensures var r := ReadFull(rx, n);
            && r.error.None? && r.rx.Intact()
            && r.got == rx.Pending()[..n] && r.rx.Pending() == rx.Pending()[n..]
            && rx.Readable() == r.got + r.rx.Readable()
            && r.rx.recv.key == rx.recv.key && r.rx.closed == rx.closed
            && r.rx.recv.nonce + r.rx.Flying() == rx.recv.nonce + rx.Flying()
    decreases |rx.readBuf| + |rx.wire|
  {
    hide Read, OpenAll, Clean, Concat, Rx.Readable, Rx.Pending;
    if n > 0 {
      ReadIntact(rx, n);
      var first := Read(rx, n);
      ReadFullIntact(first.rx, n - |first.got|);
      TakeInTwo(rx.Pending(), first.got, first.rx.Pending(), n);
      Assoc(first.got, ReadFull(first.rx, n - |first.got|).got, ReadFull(rx, n).rx.Readable());
    }
  }

  /** If fewer can be obtained, it takes those and reports the end, as unexpected if the stream ended
      after some of the bytes asked for. */
  lemma {:induction false} ReadFullShort(rx: Rx, n: nat)
    requires rx.Intact() && |rx.Pending()| < n
    ensures var r := ReadFull(rx, n);
            && r.got == rx.Pending()
            && r.error == Some(if rx.closed then ClosedPipe else if rx.Pending() == [] then EOF else UnexpectedEOF)
    decreases |rx.readBuf| + |rx.wire|
  {
    hide Read, OpenAll, Clean, Concat, Rx.Readable, Rx.Pending;
    ReadIntact(rx, n);
    if rx.Pending() != [] {
      var first := Read(rx, n);
      ReadFullShort(first.rx, n - |first.got|);
    }
  }

  /** A full read of bytes that are open already, or that one sealed frame holds, takes no more than
      those. */
  lemma ReadFullWithin(rx: Rx, n: nat)
    requires n <= |rx.readBuf|
    ensures ReadFull(rx, n) == Pulled(rx.readBuf[..n], None, rx.(readBuf := rx.readBuf[n..]))
  {
    if n > 0 {
      var first := Read(rx, n);
      assert ReadFull(first.rx, 0) == Pulled([], None, first.rx);
      assert first.got + [] == first.got;
    }
  }

  lemma ReadFullOpens(rx: Rx, n: nat, plain: bytes, rest: bytes)
    requires rx.readBuf == [] && !rx.closed && OpenNext(rx.recv, rx.wire) == Opened(plain, rest)
    requires 0 < n <= |plain|
    ensures ReadFull(rx, n) == Pulled(plain[..n], None, Rx(rx.recv.Next(), plain[n..], rest, false))
  {
    var first := Read(rx, n);
    assert ReadFull(first.rx, 0) == Pulled([], None, first.rx);
    assert first.got + [] == first.got;
  }

  lemma TakeInTwo(all: bytes, taken: bytes, left: bytes, n: nat)
    requires all == taken + left && |taken| <= n <= |all|
    ensures all[..n] == taken + left[..n - |taken|]
    ensures all[n..] == left[n - |taken|..]
  {
  }
}
