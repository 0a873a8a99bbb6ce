/** One direction of the tunnel over whole runs, with frames of every size: exactly which sizes it
    always accepts, and what a refused frame takes with it. */
module LinkRuns {
  import opened Bytes
  import opened Io
  import opened Codec
  import opened Crypto
  import opened Links
  import C = Coalesce

  datatype Op =
    | Send(f: Frame, draw: nat, stopped: bool)
    | Fire(t: nat, draw: nat)
    | Cover(draw: nat, stopped: bool)
    | Close(stopped: bool)
    | CloseReceiver
    | Take

  function Apply(l: Link, op: Op): Link {
    match op
    case Send(f, draw, stopped) => if Valid(f) then SendFrame(l, f, draw, stopped).link else l
    case Fire(t, draw) => FireTimer(l, t, draw)
    case Cover(draw, stopped) => TickCover(l, draw, stopped)
    case Close(stopped) => Shut(l, stopped)
    case CloseReceiver => Cut(l)
    case Take => Receive(l).link
  }

  function Run(l: Link, ops: seq<Op>): Link
    decreases |ops|
  {
    if ops == [] then l else Run(Apply(l, ops[0]), ops[1..])
  }

  // ---------- Every run keeps the direction good ----------

  /** Whether the sealed framing takes what the coalescer hands on or refuses it, for its size or
      for an exhausted nonce, both ends go on agreeing. */
  lemma ShipKeepsGood(l: Link, o: C.Outcome, fs: seq<Frame>, pad: Option<Frame>)
    requires l.Sealed? && Good(l) && C.Sound(o.c) && AllValid(fs)
    requires pad.Some? ==> Valid(pad.value)
    requires C.Moves(l.coal.buf, EncodeAll(fs), pad, o) && o.error.None?
    ensures Good(Ship(l, o).link) && Ship(l, o).link.Sealed? && Ship(l, o).link.coal == o.c
  {
    hide Aligned, DecodeAll, EncodeAll, AllValid, Valid, C.PadBytes, Clean, OpenAll, SealFrame, C.Sound, Concat;
    if o.out.Some? && |o.out.value| <= MAX_SEALED_PAYLOAD && !l.send.Exhausted() {
      ShipIsEnqueue(l, o, fs, pad);
    } else {
      assert l.rx.wire + [] == l.rx.wire && l.rx.(wire := l.rx.wire) == l.rx;
      DecodeAllEncodeAll(fs);
      DecodeAllAppend(l.coal.buf, EncodeAll(fs));
      NothingDecodes();
    }
  }

  lemma SendKeepsGood(l: Link, f: Frame, draw: nat, stopped: bool)
    requires l.Sealed? && Good(l) && Valid(f)
    ensures var l' := SendFrame(l, f, draw, stopped).link;
            Good(l') && l'.Sealed? && l'.coal.cfg == l.coal.cfg
  {
    hide C.Padding, C.Write, Encode, Ship, Complete, DecodeAll, Clean, OpenAll, C.AccountsSound, C.TimersSound;
    if IsShut(l) {
      ClosedRefuses(l, f, draw, stopped);
    } else {
      C.WriteSound(l.coal, Encode(f), draw, stopped);
      C.WriteMoves(l.coal, Encode(f), draw, stopped);
      EncodeAllOne(f);
      ShipKeepsGood(l, C.Write(l.coal, Encode(f), draw, stopped), [f],
                    C.Padding(l.coal.cfg, |l.coal.buf| + |Encode(f)|, draw));
    }
  }

  lemma ApplyKeepsGood(l: Link, op: Op)
    requires l.Sealed? && Good(l)
    ensures Good(Apply(l, op)) && Apply(l, op).Sealed? && Apply(l, op).coal.cfg == l.coal.cfg
  {
    hide C.Padding, C.TimerFlush, C.CoverTick, C.Close, C.Moves, Ship, SendFrame, Receive;
    hide Complete, DecodeAll, Clean, OpenAll, C.AccountsSound;
    match op {
      case Send(f, draw, stopped) =>
        if Valid(f) {
          SendKeepsGood(l, f, draw, stopped);
        }
      case Fire(t, draw) =>
        if t in l.coal.armed {
          C.TimerSound(l.coal, t, draw);
          C.TimerMoves(l.coal, t, draw);
          ShipKeepsGood(l, C.TimerFlush(l.coal, t, draw), [], C.Padding(l.coal.cfg, |l.coal.buf|, draw));
        }
      case Cover(draw, stopped) =>
        C.CoverSound(l.coal, draw, stopped);
        C.CoverMoves(l.coal, draw, stopped);
        ShipKeepsGood(l, C.CoverTick(l.coal, draw, stopped), [], C.Padding(l.coal.cfg, |l.coal.buf|, draw));
      case Close(stopped) =>
        C.CloseSound(l.coal, stopped);
        C.CloseMoves(l.coal, stopped);
        ShipKeepsGood(l, C.Close(l.coal, stopped), [], None);
      case CloseReceiver =>
        CutKeeps(l);
      case Take =>
        ReceiveIsDequeue(l);
    }
  }

  lemma {:induction false} RunKeepsGood(l: Link, ops: seq<Op>)
    requires l.Sealed? && Good(l)
    ensures Good(Run(l, ops)) && Run(l, ops).Sealed? && Run(l, ops).coal.cfg == l.coal.cfg
    decreases |ops|
  {
    hide Good, Apply;
    if ops != [] {
      ApplyKeepsGood(l, ops[0]);
      RunKeepsGood(Apply(l, ops[0]), ops[1..]);
    }
  }

  // ---------- Which sizes are always accepted ----------

  /** Over every run as deployed, an open direction accepts every frame of `n` payload bytes. */
  ghost predicate AlwaysAccepts(n: nat) {
    forall cs, ops, f, draw, stopped ::
      var l := Run(New(C.DEPLOYED, cs), ops);
      Valid(f) && |f.payload| == n && !IsShut(l) && !Spent(l) ==>
        SendFrame(l, f, draw, stopped).error.None?
  }

  /** That is so exactly up to 60133 bytes. */
  lemma LargestSafePayload(n: nat)
    requires n <= MAX_PAYLOAD
    ensures AlwaysAccepts(n) <==> n <= 60133
  {
    hide Run, Good, SendFrame;
    if n <= 60133 {
      forall cs, ops, f, draw, stopped
        ensures var l := Run(New(C.DEPLOYED, cs), ops);
                Valid(f) && |f.payload| == n && !IsShut(l) && !Spent(l) ==>
                  SendFrame(l, f, draw, stopped).error.None?
      {
        NewGood(C.DEPLOYED, cs);
        RunKeepsGood(New(C.DEPLOYED, cs), ops);
        SmallAccepted(Run(New(C.DEPLOYED, cs), ops), f, draw, stopped);
      }
    } else {
      var cs := CipherState(0, 0);
      var small := Frame(PROTOCOL_VERSION, TYPE_DATA, 1, C.Zeros(1291));
      var big := Frame(PROTOCOL_VERSION, TYPE_DATA, 1, C.Zeros(n));
      LargeFramesAreLost(cs, small, big, 0, false);
      assert SendFrame(Run(New(C.DEPLOYED, cs), [Send(small, 0, false)]), big, 0, false).error.Some?;
    }
  }

  lemma SmallAccepted(l: Link, f: Frame, draw: nat, stopped: bool)
    requires l.Sealed? && Good(l) && l.coal.cfg == C.DEPLOYED
    ensures Valid(f) && |f.payload| <= 60133 && !IsShut(l) && !Spent(l) ==>
              SendFrame(l, f, draw, stopped).error.None?
  {
    hide SendFrame, Complete, DecodeAll, Clean, OpenAll, C.AccountsSound, C.TimersSound;
    if Valid(f) && |f.payload| <= 60133 && !IsShut(l) && !Spent(l) {
      RefusedExactlyWhenTooLong(l, f, draw, stopped);
    }
  }

  /** Every larger frame that the multiplexer allows can be refused, and take an accepted frame with
      it: so it happens to any of them that follows a frame of 1291 bytes at once. */
  lemma LargeFramesAreLost(cs: CipherState, small: Frame, big: Frame, draw: nat, stopped: bool)
    requires !cs.Exhausted() && Valid(small) && Valid(big)
    requires |small.payload| == 1291 && |big.payload| > 60133
    ensures var first := SendFrame(New(C.DEPLOYED, cs), small, draw, stopped);
            var second := SendFrame(first.link, big, draw, stopped);
            && first.link == Run(New(C.DEPLOYED, cs), [Send(small, draw, stopped)])
            && !IsShut(first.link) && !Spent(first.link)
            && first.error.None? && InFlight(first.link) == [small]
            && second.error == Some(SealedTooLong) && InFlight(second.link) == []
  {
    hide SendFrame, Encode, Complete, DecodeAll, Clean, OpenAll, C.AccountsSound, C.TimersSound, Run;
    var l := New(C.DEPLOYED, cs);
    var first := SendFrame(l, small, draw, stopped).link;
    Buffered(cs, small, draw, stopped);
    RunOne(l, Send(small, draw, stopped));
    NewGood(C.DEPLOYED, cs);
    SendKeepsGood(l, small, draw, stopped);
    RefusedExactlyWhenTooLong(first, big, draw, stopped);
    DecodeAllFrame(small);
    NothingDecodes();
    assert Near(l) == [] && Far(first) == [small];
    assert Near(first) == Near(l);
  }

  lemma RunOne(l: Link, op: Op)
    ensures Run(l, [op]) == Apply(l, op)
  {
    hide Apply;
    assert Run(l, [op]) == Run(Apply(l, op), []);
  }

  lemma Buffered(cs: CipherState, f: Frame, draw: nat, stopped: bool)
    requires Valid(f) && |f.payload| == 1291
    ensures var l := New(C.DEPLOYED, cs);
            var s := SendFrame(l, f, draw, stopped);
            && s.error.None? && s.link.Sealed? && s.link.coal.buf == Encode(f)
            && s.link.rx == l.rx && s.link.send == cs && !IsShut(s.link)
  {
    hide Encode;
    Waits(New(C.DEPLOYED, cs), f, draw, stopped);
    assert [] + Encode(f) == Encode(f);
  }

  /** A frame that leaves the buffer below the threshold waits there. */
  lemma Waits(l: Link, f: Frame, draw: nat, stopped: bool)
    requires l.Sealed? && !IsShut(l) && Valid(f)
    requires |l.coal.buf| + HEADER_SIZE + |f.payload| < l.coal.cfg.flushBytes
    ensures var s := SendFrame(l, f, draw, stopped);
            && s.error.None? && s.link.Sealed? && s.link.coal.buf == l.coal.buf + Encode(f)
            && s.link.coal.cfg == l.coal.cfg
            && s.link.rx == l.rx && s.link.send == l.send && !IsShut(s.link)
  {
    hide C.Flush;
    assert l.rx.wire + [] == l.rx.wire;
  }
}
