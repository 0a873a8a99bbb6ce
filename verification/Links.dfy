/** One direction of the tunnel, layer on layer: frame encoder, coalescer, sealed framing, wire,
    and the same layers in reverse. The module proves that this stack is a FIFO queue of frames
    into which only PADDING frames are ever inserted, and exactly when it refuses a frame. */
module Links {
  import opened Bytes
  import opened Io
  import opened Codec
  import opened Crypto
  import C = Coalesce

  /** A direction of the tunnel through the whole stack, or over a bare transport that carries the
      frames as they are. `shut`: the sender has closed its end. `closed`: the receiver has. */
  datatype Link =
    | Sealed(coal: C.Coal, send: CipherState, rx: Rx)
    | Bare(wire: bytes, shut: bool, closed: bool)

  function New(cfg: C.Config, cs: CipherState): Link {
    Sealed(C.New(cfg), cs, Rx(cs, [], [], false))
  }

  const BARE := Bare([], false, false)

  predicate IsShut(l: Link) {
    match l
    case Sealed(coal, _, _) => coal.closed
    case Bare(_, shut, _) => shut
  }

  /** The receiver has closed its own end: what it has not taken off the transport is lost to it. */
  predicate IsCut(l: Link) {
    match l
    case Sealed(_, _, rx) => rx.closed
    case Bare(_, _, closed) => closed
  }

  /** No nonce is left to seal with. */
  predicate Spent(l: Link) {
    l.Sealed? && l.send.Exhausted()
  }

  /** At least `n` nonces are left. */
  predicate Room(l: Link, n: nat) {
    l.Sealed? ==> l.send.nonce + n <= MAX_NONCE
  }

  function Armed(l: Link): set<nat> {
    if l.Sealed? then l.coal.armed else {}
  }

  // ---------- Sending ----------

  datatype Shipped = Shipped(link: Link, error: Option<Error>)

  /** What the coalescer emits goes through the sealed framing. */
  function Emit(cs: CipherState, o: C.Outcome): Sent {
    match o.out
    case None => Sent(o.error, cs, [])
    case Some(data) => Send(cs, data)
  }

  /** Hands what the coalescer emits to the sealed framing and on to the wire. */
  function Ship(l: Link, o: C.Outcome): Shipped
    requires l.Sealed?
  {
    var s := Emit(l.send, o);
    Shipped(Sealed(o.c, s.cs, l.rx.(wire := l.rx.wire + s.onWire)), s.error)
  }

  /** The encoder's WriteFrame. */
  function SendFrame(l: Link, f: Frame, draw: nat, stopped: bool): Shipped {
    if |f.payload| > MAX_PAYLOAD then Shipped(l, Some(PayloadTooLong))
    else match l
      case Sealed(coal, _, _) => Ship(l, C.Write(coal, Encode(f), draw, stopped))
      case Bare(wire, shut, _) =>
        if shut then Shipped(l, Some(ClosedPipe)) else Shipped(l.(wire := wire + Encode(f)), None)
  }

  function FireTimer(l: Link, t: nat, draw: nat): Link {
    if l.Sealed? && t in l.coal.armed then Ship(l, C.TimerFlush(l.coal, t, draw)).link else l
  }

  function TickCover(l: Link, draw: nat, stopped: bool): Link {
    if l.Sealed? then Ship(l, C.CoverTick(l.coal, draw, stopped)).link else l
  }

  /** The sender closes its end. */
  function Shut(l: Link, stopped: bool): Link {
    match l
    case Sealed(coal, _, _) => Ship(l, C.Close(coal, stopped)).link
    case Bare(_, _, _) => l.(shut := true)
  }

  /** The receiver closes its end. */
  function Cut(l: Link): Link {
    match l
    case Sealed(_, _, rx) => l.(rx := rx.(closed := true))
    case Bare(_, _, _) => l.(closed := true)
  }

  // ---------- Receiving ----------

  datatype Received = Received(frame: Option<Frame>, error: Option<Error>, rx: Rx)

  /** The decoder's ReadFrame on top of the stack. */
  function ReadFrame(rx: Rx): (r: Received)
    ensures r.frame.Some? <==> r.error.None?
  {
    var h := Crypto.ReadFull(rx, HEADER_SIZE);
    if h.error.Some? then Received(None, h.error, h.rx)
    else if h.got[0] != PROTOCOL_VERSION then Received(None, Some(UnsupportedVersion), h.rx)
    else
      var p := Crypto.ReadFull(h.rx, GetU16(h.got[6..8]));
      if p.error.Some? then Received(None, Some(PayloadRead(p.error.value)), p.rx)
      else Received(Some(Frame(h.got[0], h.got[1], GetU32(h.got[2..6]), p.got)), None, p.rx)
  }

  datatype Arrival = Arrival(frame: Option<Frame>, error: Option<Error>, link: Link)

  /** One ReadFrame at the receiving end of a direction. */
  function Receive(l: Link): (r: Arrival)
    ensures r.frame.Some? <==> r.error.None?
  {
    match l
    case Sealed(_, _, rx) =>
      var r := ReadFrame(rx);
      Arrival(r.frame, r.error, l.(rx := r.rx))
    case Bare(wire, _, closed) =>
      if closed then Arrival(None, Some(ClosedPipe), l)
      else match DecodeOne(wire)
        case Got(f, rest) => Arrival(Some(f), None, l.(wire := rest))
        case NoBytes => Arrival(None, Some(EOF), l)
        case ShortHeader => Arrival(None, Some(UnexpectedEOF), l.(wire := []))
        case BadVersion => Arrival(None, Some(UnsupportedVersion), l.(wire := wire[HEADER_SIZE..]))
        case ShortPayload =>
          Arrival(None, Some(PayloadRead(if |wire| == HEADER_SIZE then EOF else UnexpectedEOF)), l.(wire := []))
  }

  // ---------- The queue of frames inside ----------

  /** Every byte on its way is in a whole frame, and both ends agree on what is sealed. */
  ghost predicate Good(l: Link) {
    match l
    case Sealed(coal, send, rx) =>
      && C.Sound(coal)
      && rx.Intact()
      && send.key == rx.recv.key
      && send.nonce == rx.recv.nonce + rx.Flying()
      && Complete(rx.Readable())
      && Complete(coal.buf)
      && Aligned(rx)
    case Bare(wire, _, _) => Complete(wire)
  }

  /** No frame is cut by the edge of a sealed frame: what is open already, and every plaintext on the
      wire, is made of whole frames. */
  predicate Aligned(rx: Rx) {
    Complete(rx.readBuf) && AllComplete(OpenAll(rx.recv, rx.wire))
  }

  predicate AllComplete(ss: seq<bytes>) {
    forall i :: 0 <= i < |ss| ==> Complete(ss[i])
  }

  /** The frames that left the sender. */
  function Near(l: Link): seq<Frame> {
    match l
    case Sealed(_, _, rx) => DecodeAll(rx.Readable())
    case Bare(wire, _, _) => DecodeAll(wire)
  }

  /** The frames that wait in the sender's buffer. */
  function Far(l: Link): seq<Frame> {
    match l
    case Sealed(coal, _, _) => DecodeAll(coal.buf)
    case Bare(_, _, _) => []
  }

  /** The frames on their way. */
  function InFlight(l: Link): seq<Frame> {
    Near(l) + Far(l)
  }

  /** The receiver can obtain another frame. */
  predicate HasNext(l: Link) {
    match l
    case Sealed(_, _, rx) => rx.Pending() != []
    case Bare(wire, _, closed) => !closed && wire != []
  }

  lemma NewGood(cfg: C.Config, cs: CipherState)
    ensures Good(New(cfg, cs)) && InFlight(New(cfg, cs)) == []
  {
    hide C.Sound;
    C.NewSound(cfg);
    var rx := New(cfg, cs).rx;
    assert OpenAll(cs, []) == [];
  }

  lemma BareGood()
    ensures Good(BARE) && InFlight(BARE) == []
  {
  }

  function AsList(pad: Option<Frame>): seq<Frame> {
    match pad case Some(f) => [f] case None => []
  }

  /** Sealing data made of whole frames puts those frames at the end of the receiver's share. */
  lemma SealData(l: Link, data: bytes)
    requires l.Sealed? && Aligned(l.rx)
    requires l.rx.Intact() && l.send.key == l.rx.recv.key
    requires l.send.nonce == l.rx.recv.nonce + l.rx.Flying() && !l.send.Exhausted()
    requires Complete(l.rx.Readable()) && Complete(data) && |data| <= MAX_SEALED_PAYLOAD
    ensures var s := Send(l.send, data);
            var rx := l.rx.(wire := l.rx.wire + s.onWire);
            && s.error.None?
            && rx.Intact() && s.cs.key == rx.recv.key && s.cs.nonce == rx.recv.nonce + rx.Flying()
            && Complete(rx.Readable()) && Aligned(rx)
            && DecodeAll(rx.Readable()) == DecodeAll(l.rx.Readable()) + DecodeAll(data)
            && l.send.nonce <= s.cs.nonce <= l.send.nonce + 1
  {
    hide Complete, DecodeAll, Clean, OpenAll, SealFrame, Concat;
    SendIntact(l.send, l.rx, data);
    DecodeAllAppend(l.rx.Readable(), data);
  }

  lemma NothingDecodes()
    ensures DecodeAll([]) == [] && Complete([])
  {
  }

  /** The central step: whatever the coalescer accepts and emits, the frames in flight only grow at
      the end, by the accepted frames and then at most one padding frame. */
  lemma ShipIsEnqueue(l: Link, o: C.Outcome, fs: seq<Frame>, pad: Option<Frame>)
    requires l.Sealed? && Good(l) && C.Sound(o.c) && !l.send.Exhausted()
    requires AllValid(fs)
    requires pad.Some? ==> Valid(pad.value)
    requires C.Moves(l.coal.buf, EncodeAll(fs), pad, o)
    requires o.out.Some? ==> |o.out.value| <= MAX_SEALED_PAYLOAD
    requires o.error.None?
    ensures var s := Ship(l, o);
            && s.error.None? && Good(s.link)
            && InFlight(s.link) == InFlight(l) + fs + (if o.out.Some? then AsList(pad) else [])
            && s.link.Sealed? && s.link.coal == o.c && s.link.rx.closed == l.rx.closed
            && s.link.rx.readBuf == l.rx.readBuf
            && l.send.nonce <= s.link.send.nonce <= l.send.nonce + 1
  {
    hide Aligned, Complete, DecodeAll, EncodeAll, AllValid, Valid, C.PadBytes, Clean, OpenAll, Send, C.Sound, Concat;
    var buf, p := l.coal.buf, EncodeAll(fs);
    var ready, tail := DecodeAll(l.rx.Readable()), DecodeAll(buf);
    DecodeAllEncodeAll(fs);
    DecodeAllAppend(buf, p);
    match o.out {
      case None =>
        assert l.rx.wire + [] == l.rx.wire && l.rx.(wire := l.rx.wire) == l.rx;
        assert ready + (tail + fs) == ((ready + tail) + fs) + [];
      case Some(data) =>
        PadDecodes(buf + p, pad);
        SealData(l, data);
        NothingDecodes();
        Regroup4(ready, tail, fs, AsList(pad));
    }
  }

  lemma PadDecodes(s: bytes, pad: Option<Frame>)
    requires Complete(s) && (pad.Some? ==> Valid(pad.value))
    ensures Complete(s + C.PadBytes(pad)) && DecodeAll(s + C.PadBytes(pad)) == DecodeAll(s) + AsList(pad)
  {
    match pad
    case Some(f) =>
      DecodeAllFrame(f);
      DecodeAllAppend(s, Encode(f));
    case None =>
      assert s + [] == s;
  }

  lemma Regroup4<T>(a: seq<T>, b: seq<T>, c: seq<T>, d: seq<T>)
    ensures (a + ((b + c) + d)) + [] == ((a + b) + c) + d
  {
  }

  // ---------- What fits ----------

  /** Any buffer below the threshold followed by a frame of `n` payload bytes, and any padded
      flush, fit into one sealed frame. */
  predicate CanCarry(cfg: C.Config, n: nat) {
    && C.Normal(cfg)
    && cfg.flushBytes - 1 + HEADER_SIZE + n <= MAX_SEALED_PAYLOAD
    && cfg.minPadded <= MAX_SEALED_PAYLOAD && cfg.maxPadded <= MAX_SEALED_PAYLOAD
  }

  /** Every frame of up to `n` payload bytes fits. */
  predicate Carries(l: Link, n: nat) {
    match l
    case Sealed(coal, _, _) => CanCarry(coal.cfg, n)
    case Bare(_, _, _) => n <= MAX_PAYLOAD
  }

  lemma PaddedFits(cfg: C.Config, s: bytes, draw: nat)
    requires C.Normal(cfg) && cfg.minPadded <= MAX_SEALED_PAYLOAD && cfg.maxPadded <= MAX_SEALED_PAYLOAD
    ensures var pad := C.Padding(cfg, |s|, draw);
            |s + C.PadBytes(pad)| <= MAX_SEALED_PAYLOAD <==> |s| <= MAX_SEALED_PAYLOAD
  {
  }

  // ---------- Each operation, as seen by the queue ----------

  predicate OnlyPadding(fs: seq<Frame>) {
    |fs| <= 1 && forall i :: 0 <= i < |fs| ==> Valid(fs[i]) && fs[i].ftype == TYPE_PADDING
  }

  /** Sending changed neither the kind of the direction nor its receiving end. */
  predicate Same(l: Link, l': Link) {
    && IsCut(l') == IsCut(l)
    && match l
       case Sealed(coal, send, rx) =>
         && l'.Sealed? && l'.coal.cfg == coal.cfg && l'.rx.readBuf == rx.readBuf
         && send.nonce <= l'.send.nonce <= send.nonce + 1
       case Bare(_, _, _) => l'.Bare?
  }

  /** Receiving changed nothing of the sending end. */
  predicate SameEnds(l: Link, l': Link) {
    && IsCut(l') == IsCut(l)
    && match l
       case Sealed(coal, send, _) => l'.Sealed? && l'.coal == coal && l'.send == send
       case Bare(_, shut, _) => l'.Bare? && l'.shut == shut
  }

  /** Sending a frame that fits enqueues it, and at most one padding frame after it. */
  lemma SendIsEnqueue(l: Link, f: Frame, draw: nat, stopped: bool)
    returns (pad: seq<Frame>)
    requires Good(l) && !Spent(l) && !IsShut(l)
    requires Valid(f) && Carries(l, |f.payload|)
    ensures var s := SendFrame(l, f, draw, stopped);
            && s.error.None? && Good(s.link)
            && InFlight(s.link) == InFlight(l) + [f] + pad
            && OnlyPadding(pad)
            && Same(l, s.link) && IsShut(s.link) == IsShut(l)
            && 2 * |Armed(s.link)| + |pad| <= 2 * |Armed(l)| + 2
  {
    hide Good, InFlight, SendFrame;
    match l
    case Sealed(_, _, _) => pad := SealedSend(l, f, draw, stopped);
    case Bare(_, _, _) => BareSend(l, f, draw, stopped); pad := [];
  }

  lemma BareSend(l: Link, f: Frame, draw: nat, stopped: bool)
    requires l.Bare? && Good(l) && !IsShut(l) && Valid(f)
    ensures var s := SendFrame(l, f, draw, stopped);
            && s.error.None? && Good(s.link)
            && InFlight(s.link) == InFlight(l) + [f] + []
            && Same(l, s.link) && !IsShut(s.link)
  {
    hide DecodeAll, Complete, Encode;
    DecodeAllFrame(f);
    DecodeAllAppend(l.wire, Encode(f));
  }

  lemma SealedSend(l: Link, f: Frame, draw: nat, stopped: bool)
    returns (pad: seq<Frame>)
    requires l.Sealed? && Good(l) && !Spent(l) && !IsShut(l)
    requires Valid(f) && CanCarry(l.coal.cfg, |f.payload|)
    ensures var s := SendFrame(l, f, draw, stopped);
            && s.error.None? && Good(s.link)
            && InFlight(s.link) == InFlight(l) + [f] + pad
            && OnlyPadding(pad)
            && Same(l, s.link) && IsShut(s.link) == IsShut(l)
            && 2 * |Armed(s.link)| + |pad| <= 2 * |Armed(l)| + 2
  {
    hide C.Write, C.Padding, Encode, Complete, DecodeAll, Clean, OpenAll, Concat, InFlight, Ship;
    hide C.AccountsSound, C.TimersSound, Aligned;
    var o := C.Write(l.coal, Encode(f), draw, stopped);
    var p := C.Padding(l.coal.cfg, |l.coal.buf| + |Encode(f)|, draw);
    C.WriteSound(l.coal, Encode(f), draw, stopped);
    C.WriteMoves(l.coal, Encode(f), draw, stopped);
    C.ArmedCount(l.coal, Encode(f), draw, stopped, 0);
    EncodeAllOne(f);
    PaddedFits(l.coal.cfg, l.coal.buf + Encode(f), draw);
    ShipIsEnqueue(l, o, [f], p);
    pad := if o.out.Some? then AsList(p) else [];
  }

  /** Flushes that accept no frame: a timer callback, cover traffic, closing. */
  lemma IdleIsPadding(l: Link, o: C.Outcome, pad: Option<Frame>) returns (added: seq<Frame>)
    requires l.Sealed? && Good(l) && C.Sound(o.c) && !Spent(l)
    requires pad.Some? ==> Valid(pad.value) && pad.value.ftype == TYPE_PADDING
    requires C.Moves(l.coal.buf, [], pad, o) && o.error.None? && o.c.cfg == l.coal.cfg
    requires |(l.coal.buf + []) + C.PadBytes(pad)| <= MAX_SEALED_PAYLOAD
    ensures var l' := Ship(l, o).link;
            && Good(l') && InFlight(l') == InFlight(l) + added && OnlyPadding(added)
            && Same(l, l') && l'.coal == o.c
    ensures pad.None? || o.out.None? ==> added == []
  {
    hide Ship, Good, InFlight, Valid;
    ShipIsEnqueue(l, o, [], pad);
    added := if o.out.Some? then AsList(pad) else [];
    assert InFlight(l) + [] + added == InFlight(l) + added;
  }

  lemma TimerIsPadding(l: Link, t: nat, draw: nat) returns (added: seq<Frame>)
    requires Good(l) && !Spent(l) && Carries(l, 0)
    ensures var l' := FireTimer(l, t, draw);
            && Good(l') && InFlight(l') == InFlight(l) + added && OnlyPadding(added)
            && Same(l, l') && IsShut(l') == IsShut(l)
            && (IsShut(l) ==> added == [])
            && |Armed(l')| == |Armed(l)| - (if t in Armed(l) then 1 else 0)
  {
    hide C.TimerFlush, C.Padding, Ship, InFlight, Complete, Clean, OpenAll, C.Moves, Aligned;
    if t in Armed(l) {
      C.TimerSound(l.coal, t, draw);
      C.TimerMoves(l.coal, t, draw);
      C.ArmedCount(l.coal, [], draw, false, t);
      PaddedFits(l.coal.cfg, l.coal.buf + [], draw);
      added := IdleIsPadding(l, C.TimerFlush(l.coal, t, draw), C.Padding(l.coal.cfg, |l.coal.buf|, draw));
    } else {
      added := [];
      assert InFlight(l) + [] == InFlight(l);
    }
  }

  lemma CoverIsPadding(l: Link, draw: nat, stopped: bool) returns (added: seq<Frame>)
    requires Good(l) && !Spent(l) && Carries(l, 0)
    ensures var l' := TickCover(l, draw, stopped);
            && Good(l') && InFlight(l') == InFlight(l) + added && OnlyPadding(added)
            && Same(l, l') && IsShut(l') == IsShut(l)
            && (IsShut(l) ==> added == [])
  {
    hide C.CoverTick, C.Padding, Ship, InFlight, Complete, Clean, OpenAll, C.Moves, Aligned;
    if l.Sealed? {
      C.CoverSound(l.coal, draw, stopped);
      C.CoverMoves(l.coal, draw, stopped);
      PaddedFits(l.coal.cfg, l.coal.buf + [], draw);
      added := IdleIsPadding(l, C.CoverTick(l.coal, draw, stopped), C.Padding(l.coal.cfg, |l.coal.buf|, draw));
    } else {
      added := [];
      assert InFlight(l) + [] == InFlight(l);
    }
  }

  /** The sender's Close loses nothing of what it sent. */
  lemma ShutLosesNothing(l: Link, stopped: bool)
    requires Good(l) && !Spent(l) && Carries(l, 0)
    ensures var l' := Shut(l, stopped);
            && Good(l') && InFlight(l') == InFlight(l)
            && Same(l, l') && IsShut(l')
  {
    hide C.Close, InFlight, Complete, Clean, OpenAll, Ship, C.Moves, Aligned;
    if l.Sealed? {
      C.CloseSound(l.coal, stopped);
      C.CloseMoves(l.coal, stopped);
      assert |(l.coal.buf + []) + []| <= MAX_SEALED_PAYLOAD;
      var added := IdleIsPadding(l, C.Close(l.coal, stopped), None);
      assert InFlight(l) + [] == InFlight(l);
    } else {
      SameWire(l, Shut(l, stopped));
    }
  }

  lemma SameWire(l: Link, l': Link)
    requires l.Bare? && l'.Bare? && l'.wire == l.wire
    ensures InFlight(l') == InFlight(l)
  {
  }

  /** A closed direction refuses every frame and is left as it was. */
  lemma ClosedRefuses(l: Link, f: Frame, draw: nat, stopped: bool)
    requires IsShut(l)
    ensures SendFrame(l, f, draw, stopped).link == l
    ensures SendFrame(l, f, draw, stopped).error.Some?
  {
    if l.Sealed? {
      assert l.rx.wire + [] == l.rx.wire;
    }
  }

  /** The receiver's Close leaves everything where it is. */
  lemma CutKeeps(l: Link)
    requires Good(l)
    ensures Good(Cut(l)) && InFlight(Cut(l)) == InFlight(l)
    ensures IsCut(Cut(l)) && IsShut(Cut(l)) == IsShut(l) && Armed(Cut(l)) == Armed(l)
    ensures forall n :: Carries(Cut(l), n) <==> Carries(l, n)
  {
    hide Complete, DecodeAll, Clean, OpenAll, Concat;
  }

  // ---------- Receiving takes the first frame ----------

  /** The receiver obtains the first frame on its way, whole, however reads and sealed frames cut the
      bytes. It is told of the end exactly when it can obtain no other: of the end of the stream when
      nothing has left the sender, of its own closing when it closed its end. */
  lemma ReceiveIsDequeue(l: Link)
    requires Good(l)
    ensures var r := Receive(l);
            && Good(r.link) && SameEnds(l, r.link)
            && (if HasNext(l) then
                  && r.frame.Some? && Valid(r.frame.value)
                  && InFlight(l) == [r.frame.value] + InFlight(r.link)
                else r.link == l && r.error == Some(if IsCut(l) then ClosedPipe else EOF))
  {
    hide Good, InFlight, ReadFrame, DecodeOne;
    match l
    case Sealed(_, _, _) => SealedReceive(l);
    case Bare(_, _, _) => BareReceive(l);
  }

  lemma BareReceive(l: Link)
    requires l.Bare? && Good(l)
    ensures var r := Receive(l);
            && Good(r.link) && SameEnds(l, r.link)
            && (if HasNext(l) then
                  && r.frame.Some? && Valid(r.frame.value)
                  && InFlight(l) == [r.frame.value] + InFlight(r.link)
                else r.link == l && r.error == Some(if IsCut(l) then ClosedPipe else EOF))
  {
    if HasNext(l) {
      hide DecodeOne;
      FrameReady(l.wire);
      EncodeDecode(l.wire);
    }
  }

  lemma SealedReceive(l: Link)
    requires l.Sealed? && Good(l)
    ensures var r := Receive(l);
            && Good(r.link) && SameEnds(l, r.link)
            && (if HasNext(l) then
                  && r.frame.Some? && Valid(r.frame.value)
                  && InFlight(l) == [r.frame.value] + InFlight(r.link)
                else r.link == l && r.error == Some(if IsCut(l) then ClosedPipe else EOF))
  {
    hide ReadFrame, Complete, DecodeAll, Clean, OpenAll, Concat, C.Sound, Aligned, Rx.Readable;
    if HasNext(l) {
      ReadsNext(l.rx);
      var r := ReadFrame(l.rx);
      assert ([r.frame.value] + DecodeAll(r.rx.Readable())) + DecodeAll(l.coal.buf) ==
             [r.frame.value] + (DecodeAll(r.rx.Readable()) + DecodeAll(l.coal.buf));
    } else {
      ReadFrameAtEnd(l.rx);
    }
  }

  lemma ReadFrameAtEnd(rx: Rx)
    requires rx.Intact() && rx.Pending() == []
    ensures ReadFrame(rx) == Received(None, Some(rx.End()), rx)
  {
    ReadIntact(rx, HEADER_SIZE);
  }

  lemma FrameReady(s: bytes)
    requires Complete(s) && s != []
    ensures DecodeOne(s).Got? && DecodeAll(s) == [DecodeOne(s).frame] + DecodeAll(DecodeOne(s).rest)
    ensures Complete(DecodeOne(s).rest)
  {
  }

  /** What one ReadFrame does when there is a frame to obtain. */
  ghost predicate TookOne(rx: Rx, r: Received) {
    && r.frame.Some? && Valid(r.frame.value) && r.error.None?
    && r.rx.Intact() && Aligned(r.rx) && Complete(r.rx.Readable())
    && DecodeAll(rx.Readable()) == [r.frame.value] + DecodeAll(r.rx.Readable())
    && r.rx.recv.key == rx.recv.key && r.rx.closed == rx.closed
    && r.rx.recv.nonce + r.rx.Flying() == rx.recv.nonce + rx.Flying()
  }

  lemma ReadsNext(rx: Rx)
    requires rx.Intact() && Aligned(rx) && Complete(rx.Readable()) && rx.Pending() != []
    ensures TookOne(rx, ReadFrame(rx))
  {
    hide ReadFrame, DecodeOne, DecodeAll, OpenNext, TookOne, Encode;
    if rx.readBuf != [] {
      FrameReady(rx.readBuf);
      EncodeDecode(rx.readBuf);
      TakesFromBuf(rx, DecodeOne(rx.readBuf).frame, DecodeOne(rx.readBuf).rest);
    } else {
      match OpenNext(rx.recv, rx.wire)
      case Refused(_, _) =>
        assert false;
      case Opened(plain, wire) =>
        assert OpenAll(rx.recv, rx.wire)[0] == plain;
        FrameReady(plain);
        EncodeDecode(plain);
        TakesFromWire(rx, plain, wire, DecodeOne(plain).frame, DecodeOne(plain).rest);
    }
  }

  lemma TakesFromBuf(rx: Rx, f: Frame, rest: bytes)
    requires rx.Intact() && Aligned(rx) && Complete(rx.Readable())
    requires Valid(f) && rx.readBuf == Encode(f) + rest && Complete(rest)
    ensures TookOne(rx, ReadFrame(rx))
  {
    hide ReadFrame, Complete, DecodeAll, OpenAll, Clean, Concat, Encode;
    ReadFromBuf(rx, f, rest);
    var later := Concat(OpenAll(rx.recv, rx.wire));
    assert (Encode(f) + rest) + later == Encode(f) + (rest + later);
    DecodeFrameThen(f, rest + later);
  }

  lemma TakesFromWire(rx: Rx, plain: bytes, wire: bytes, f: Frame, rest: bytes)
    requires rx.Intact() && Aligned(rx) && Complete(rx.Readable())
    requires rx.readBuf == [] && !rx.closed && OpenNext(rx.recv, rx.wire) == Opened(plain, wire)
    requires Valid(f) && plain == Encode(f) + rest && Complete(rest)
    ensures TookOne(rx, ReadFrame(rx))
  {
    hide ReadFrame, Complete, DecodeAll, Encode, OpenNext;
    ReadFromWire(rx, plain, wire, f, rest);
    var plains := OpenAll(rx.recv.Next(), wire);
    assert OpenAll(rx.recv, rx.wire) == [plain] + plains && OpenAll(rx.recv, rx.wire)[1..] == plains;
    assert AllComplete(plains) by {
      forall i | 0 <= i < |plains|
        ensures Complete(plains[i])
      {
        assert plains[i] == OpenAll(rx.recv, rx.wire)[i + 1];
      }
    }
    var later := Concat(plains);
    assert [] + (plain + later) == Encode(f) + (rest + later);
    DecodeFrameThen(f, rest + later);
  }

  lemma ReadFromBuf(rx: Rx, f: Frame, rest: bytes)
    requires Valid(f) && rx.readBuf == Encode(f) + rest
    ensures ReadFrame(rx) == Received(Some(f), None, rx.(readBuf := rest))
  {
    hide Crypto.ReadFull;
    ReadFullWithin(rx, HEADER_SIZE);
    HeaderFields(f, rest);
    ReadFullWithin(rx.(readBuf := f.payload + rest), |f.payload|);
  }

  lemma ReadFromWire(rx: Rx, plain: bytes, wire: bytes, f: Frame, rest: bytes)
    requires rx.readBuf == [] && !rx.closed && OpenNext(rx.recv, rx.wire) == Opened(plain, wire)
    requires Valid(f) && plain == Encode(f) + rest
    ensures ReadFrame(rx) == Received(Some(f), None, Rx(rx.recv.Next(), rest, wire, false))
  {
    hide Crypto.ReadFull, OpenNext;
    ReadFullOpens(rx, HEADER_SIZE, plain, wire);
    HeaderFields(f, rest);
    ReadFullWithin(Rx(rx.recv.Next(), f.payload + rest, wire, false), |f.payload|);
  }

  /** On an honest wire the decoder obtains exactly what it would obtain from the bytes that were written,
      wherever writes and sealed frames cut them, and with the same errors. */
  lemma ReadFrameDecodes(rx: Rx)
    requires rx.Intact()
    ensures var r, s := ReadFrame(rx), rx.Pending();
            var cut := if rx.closed then ClosedPipe else UnexpectedEOF;
            match DecodeOne(s)
            case Got(f, rest) => r.frame == Some(f) && r.rx.Pending() == rest
            case NoBytes => r.error == Some(rx.End())
            case ShortHeader => r.error == Some(cut)
            case BadVersion => r.error == Some(UnsupportedVersion) && r.rx.Pending() == s[HEADER_SIZE..]
            case ShortPayload => r.error == Some(PayloadRead(if |s| == HEADER_SIZE then rx.End() else cut))
  {
    hide Crypto.ReadFull, OpenAll, Clean, Concat, Rx.Readable, Rx.Pending;
    var s := rx.Pending();
    if |s| < HEADER_SIZE {
      ReadFullShort(rx, HEADER_SIZE);
    } else {
      ReadFullIntact(rx, HEADER_SIZE);
      var h := Crypto.ReadFull(rx, HEADER_SIZE);
      var n := GetU16(h.got[6..8]);
      assert h.got[6..8] == s[6..8] && h.got[2..6] == s[2..6];
      if |h.rx.Pending()| < n {
        ReadFullShort(h.rx, n);
      } else {
        ReadFullIntact(h.rx, n);
        assert s[HEADER_SIZE..][..n] == s[HEADER_SIZE..HEADER_SIZE + n];
        assert s[HEADER_SIZE..][n..] == s[HEADER_SIZE + n..];
      }
    }
  }

  lemma HeaderFields(f: Frame, rest: bytes)
    requires Valid(f)
    ensures var s := Encode(f) + rest;
            && s[..HEADER_SIZE] == Header(f) && s[HEADER_SIZE..] == f.payload + rest
            && Header(f)[0] == f.version && Header(f)[1] == f.ftype
            && GetU32(Header(f)[2..6]) == f.streamID && GetU16(Header(f)[6..8]) == |f.payload|
            && (f.payload + rest)[..|f.payload|] == f.payload && (f.payload + rest)[|f.payload|..] == rest
  {
    U16RoundTrip(|f.payload|, PutU16(0));
    U32RoundTrip(f.streamID, PutU32(0));
    assert Header(f)[6..8] == PutU16(|f.payload|);
    assert Header(f)[2..6] == PutU32(f.streamID);
  }

  // ---------- Exactly when a frame is refused ----------

  /** An open direction refuses a frame exactly when the buffer and the frame together exceed one
      sealed frame; the write then reports the error and the buffered frames are gone. */
  lemma RefusedExactlyWhenTooLong(l: Link, f: Frame, draw: nat, stopped: bool)
    requires l.Sealed? && Good(l) && !Spent(l) && !IsShut(l) && Valid(f) && CanCarry(l.coal.cfg, 0)
    ensures var s := SendFrame(l, f, draw, stopped);
            var tooLong := |l.coal.buf| + HEADER_SIZE + |f.payload| > MAX_SEALED_PAYLOAD;
            && (s.error.Some? <==> tooLong)
            && s.link.Sealed?
            && (tooLong ==> s.error == Some(SealedTooLong) && s.link.rx == l.rx && s.link.coal.buf == [])
  {
    hide Complete, DecodeAll, Clean, OpenAll, Encode, C.AccountsSound, C.TimersSound;
    PaddedFits(l.coal.cfg, l.coal.buf + Encode(f), draw);
  }
}
