/** Two connections joined by two directions of the tunnel, and every interleaving of what their
    goroutines can do. */
module Network {
  import opened Bytes
  import opened Io
  import opened Codec
  import opened Crypto
  import opened Links
  import C = Coalesce
  import S = Streams
  import M = Mux

  /** `a` sends on `ab` and receives from `ba`. */
  datatype Net = Net(a: M.Conn, b: M.Conn, ab: Link, ba: Link)

  function Flip(s: Net): Net {
    Net(s.b, s.a, s.ba, s.ab)
  }

  /** A client and a server right after the handshake. */
  function Start(cfgA: C.Config, cfgB: C.Config, first: CipherState, second: CipherState): Net {
    var client, server := InitiatorKeys(first, second), ResponderKeys(first, second);
    Net(M.New(true), M.New(false),
        Sealed(C.New(cfgA), client.send, Rx(server.recv, [], [], false)),
        Sealed(C.New(cfgB), server.send, Rx(client.recv, [], [], false)))
  }

  /** Two connections joined by a bare transport. */
  const BARE_START := Net(M.New(true), M.New(false), BARE, BARE)

  /** The outcomes of the random draw and of stopping a timer, for the flush a write may cause. */
  datatype Env = Env(draw: nat, stopped: bool)

  datatype Act =
    | OpenStream(e: Env)
    | WriteChunk(id: u32, chunk: bytes, e: Env)
    | CloseStream(id: u32, e: Env)
    | Ping(cookie: bytes, e: Env)
    | Pad(payload: bytes, e: Env)
    | FireTimer(t: nat, draw: nat)
    | TickCover(e: Env)
    | CloseTunnel(stopped: bool)
    | CloseConn
    | DispatchOne(e: Env)
    | ReadStream(id: u32, n: nat)

  datatype Action = Action(byA: bool, act: Act)

  function Put(s: Net, f: Frame, e: Env): Shipped {
    SendFrame(s.ab, f, e.draw, e.stopped)
  }

  /** `a` acts. An act that is not possible in this state, or blocks, changes nothing. */
  function StepA(s: Net, act: Act): Net {
    match act
    case OpenStream(e) =>
      var r := Put(s, M.MakeFrame(TYPE_STREAM_OPEN, s.a.nextID, []), e);
      s.(a := M.OpenStream(s.a, r.error.None?), ab := r.link)
    case WriteChunk(id, chunk, e) =>
      if id !in s.a.objects || !(1 <= |chunk| <= MAX_PAYLOAD) then s
      else
        var r := Put(s, M.MakeFrame(TYPE_DATA, id, chunk), e);
        s.(a := M.SendData(s.a, id, chunk, r.error.None?), ab := r.link)
    case CloseStream(id, e) =>
      if id !in s.a.objects || s.a.objects[id].closed then s
      else
        var r := Put(s, M.MakeFrame(TYPE_STREAM_CLOSE, id, []), e);
        s.(a := M.CloseStream(s.a, id, r.error.None?), ab := r.link)
    case Ping(cookie, e) =>
      if |cookie| != 8 then s
      else
        var r := Put(s, M.MakeFrame(TYPE_PING, 0, cookie), e);
        s.(a := M.SendPing(s.a, cookie, r.error.None?), ab := r.link)
    case Pad(payload, e) =>
      if !(1 <= |payload| <= MAX_PAYLOAD) then s
      else s.(ab := Put(s, M.MakeFrame(TYPE_PADDING, 0, payload), e).link)
    case FireTimer(t, draw) => s.(ab := Links.FireTimer(s.ab, t, draw))
    case TickCover(e) => s.(ab := Links.TickCover(s.ab, e.draw, e.stopped))
    case CloseTunnel(stopped) => s.(ab := Shut(s.ab, stopped), ba := Cut(s.ba))
    case CloseConn => s.(a := M.Close(s.a))
    case DispatchOne(e) =>
      if !s.a.reading then s
      else
        var r := Receive(s.ba);
        if r.error == Some(EOF) && !IsShut(s.ba) then s
        else
          var t := s.(ba := r.link);
          if r.error.Some? then t.(a := M.StopReading(t.a))
          else Handle(t, r.frame.value, e)
    case ReadStream(id, n) =>
      if id !in s.a.objects || !S.OffsetOK(s.a.objects[id]) then s
      else s.(a := M.ReadStream(s.a, id, n))
  }

  /** dispatch, with the reply it may send. */
  function Handle(s: Net, f: Frame, e: Env): Net {
    match M.Reply(f)
    case None => s.(a := M.Dispatch(s.a, f, false))
    case Some(g) =>
      var r := Put(s, g, e);
      s.(a := M.Dispatch(s.a, f, r.error.None?), ab := r.link)
  }

  function Step(s: Net, x: Action): Net {
    if x.byA then StepA(s, x.act) else Flip(StepA(Flip(s), x.act))
  }

  function Run(s: Net, xs: seq<Action>): Net
    decreases |xs|
  {
    if xs == [] then s else Run(Step(s, xs[0]), xs[1..])
  }

  lemma RunEmpty(s: Net)
    ensures Run(s, []) == s
  {
  }

  lemma {:induction false} RunThen(s: Net, xs: seq<Action>, ys: seq<Action>)
    ensures Run(s, xs + ys) == Run(Run(s, xs), ys)
    decreases |xs|
  {
    hide Step;
    if xs == [] {
      assert xs + ys == ys;
    } else {
      RunThen(Step(s, xs[0]), xs[1..], ys);
      assert (xs + ys)[1..] == xs[1..] + ys;
    }
  }

  lemma RunSnoc(s: Net, xs: seq<Action>, x: Action)
    ensures Run(s, xs + [x]) == Step(Run(s, xs), x)
  {
    RunThen(s, xs, [x]);
    hide Step;
    assert [x][1..] == [];
  }

  // ---------- The invariant ----------

  /** Everything `a` ever sent to `b` was dispatched at `b` or is in `q`, in order: the events of
      every single stream, and the cookies of pings and pongs. */
  ghost predicate Flow(a: M.Conn, b: M.Conn, q: seq<Frame>) {
    && (forall k :: M.Sent(a, k) == M.Seen(b, k) + M.Events(k, q))
    && a.log.pingsSent == b.log.pingsSeen + M.OfType(TYPE_PING, q)
    && a.log.pongsSent == b.log.pongsSeen + M.OfType(TYPE_PONG, q)
    && (forall i :: 0 <= i < |q| && q[i].ftype == TYPE_PING ==> |q[i].payload| == 8)
  }

  /** Every ping is answered at once, with its own cookie, unless the way back is closed. */
  predicate Answers(a: M.Conn, ab: Link) {
    !IsShut(ab) ==> a.log.pongsSent == a.log.pingsSeen
  }

  /** A reader stops only after its own end was closed, or when the peer's was and everything has
      arrived. */
  predicate Stops(b: M.Conn, ab: Link, ba: Link) {
    !b.reading ==> IsShut(ba) || (IsShut(ab) && InFlight(ab) == [])
  }

  /** Closing a tunnel ends both directions at that end. */
  predicate Cuts(ab: Link, ba: Link) {
    IsCut(ba) == IsShut(ab) && IsCut(ab) == IsShut(ba)
  }

  ghost predicate Inv(s: Net, limit: nat) {
    && s.a.isClient != s.b.isClient
    && M.Sound(s.a) && M.Sound(s.b)
    && Good(s.ab) && Good(s.ba)
    && Flow(s.a, s.b, InFlight(s.ab)) && Flow(s.b, s.a, InFlight(s.ba))
    && Answers(s.a, s.ab) && Answers(s.b, s.ba)
    && Stops(s.a, s.ba, s.ab) && Stops(s.b, s.ab, s.ba)
    && Cuts(s.ab, s.ba)
    && 8 <= limit && Carries(s.ab, limit) && Carries(s.ba, limit)
  }

  /** The act sends no frame larger than the stack carries. */
  predicate Fits(act: Act, limit: nat) {
    match act
    case WriteChunk(_, chunk, _) => |chunk| <= MAX_PAYLOAD ==> |chunk| <= limit
    case Pad(payload, _) => |payload| <= MAX_PAYLOAD ==> |payload| <= limit
    case _ => true
  }

  lemma FlipInv(s: Net, limit: nat)
    ensures Inv(s, limit) <==> Inv(Flip(s), limit)
  {
  }

  lemma StartInv(cfgA: C.Config, cfgB: C.Config, first: CipherState, second: CipherState, limit: nat)
    requires 8 <= limit && CanCarry(C.Defaults(cfgA), limit) && CanCarry(C.Defaults(cfgB), limit)
    ensures Inv(Start(cfgA, cfgB, first, second), limit)
  {
    hide M.Sound, Good, InFlight;
    NewGood(cfgA, first);
    NewGood(cfgB, second);
    M.NewSound(true);
    M.NewSound(false);
  }

  lemma BareStartInv(limit: nat)
    requires 8 <= limit <= MAX_PAYLOAD
    ensures Inv(BARE_START, limit)
  {
    hide M.Sound, Good, InFlight;
    BareGood();
    M.NewSound(true);
    M.NewSound(false);
  }

  // ---------- How the flows change ----------

  lemma FlowSends(a: M.Conn, a': M.Conn, b: M.Conn, q: seq<Frame>, out: seq<Frame>, arrived: seq<Frame>)
    requires Flow(a, b, q) && M.Ledger(a, a', out, arrived)
    requires forall i :: 0 <= i < |out| && out[i].ftype == TYPE_PING ==> |out[i].payload| == 8
    ensures Flow(a', b, q + out)
  {
    hide M.Sent, M.Seen, M.Events, M.OfType;
    forall k
      ensures M.Sent(a', k) == M.Seen(b, k) + M.Events(k, q + out)
    {
      M.EventsAppend(k, q, out);
      assert (M.Seen(b, k) + M.Events(k, q)) + M.Events(k, out) == M.Seen(b, k) + (M.Events(k, q) + M.Events(k, out));
    }
    M.OfTypeAppend(TYPE_PING, q, out);
    M.OfTypeAppend(TYPE_PONG, q, out);
  }

  lemma FlowIdle(a: M.Conn, a': M.Conn, b: M.Conn, q: seq<Frame>, out: seq<Frame>)
    requires Flow(b, a, q) && M.Ledger(a, a', out, [])
    ensures Flow(b, a', q)
  {
  }

  lemma FlowArrives(a: M.Conn, a': M.Conn, b: M.Conn, f: Frame, q: seq<Frame>, out: seq<Frame>)
    requires Flow(b, a, [f] + q) && M.Ledger(a, a', out, [f])
    ensures Flow(b, a', q)
  {
    hide M.Sent, M.Seen, M.Events, M.OfType;
    forall k
      ensures M.Sent(b, k) == M.Seen(a', k) + M.Events(k, q)
    {
      M.EventsAppend(k, [f], q);
      assert (M.Seen(a, k) + M.Events(k, [f])) + M.Events(k, q) == M.Seen(a, k) + (M.Events(k, [f]) + M.Events(k, q));
    }
    M.OfTypeAppend(TYPE_PING, [f], q);
    M.OfTypeAppend(TYPE_PONG, [f], q);
    assert forall i :: 0 <= i < |q| ==> q[i] == ([f] + q)[i + 1];
  }

  // ---------- Sending steps ----------

  /** `a` hands one frame to its stack `l` and becomes `a'`: the flow to `b` gains that frame, unless
      the stack is closed, and then nothing. */
  lemma PutFlows(a: M.Conn, a': M.Conn, b: M.Conn, l: Link, f: Frame, e: Env, arrived: seq<Frame>)
    requires Good(l) && !Spent(l) && Flow(a, b, InFlight(l))
    requires Valid(f) && Carries(l, |f.payload|) && (f.ftype == TYPE_PING ==> |f.payload| == 8)
    requires M.Ledger(a, a', M.If(SendFrame(l, f, e.draw, e.stopped).error.None?, f), arrived)
    ensures var r := SendFrame(l, f, e.draw, e.stopped);
            && Good(r.link) && Flow(a', b, InFlight(r.link))
            && Same(l, r.link) && IsShut(r.link) == IsShut(l)
            && (r.error.Some? <==> IsShut(l)) && (IsShut(l) ==> r.link == l)
  {
    var q := InFlight(l);
    if IsShut(l) {
      ClosedRefuses(l, f, e.draw, e.stopped);
      hide Good, SendFrame, InFlight, M.Ledger, Flow;
      FlowSends(a, a', b, q, [], arrived);
      assert q + [] == q;
    } else {
      hide Good, SendFrame, InFlight, M.Ledger, Flow, Valid;
      var pad := SendIsEnqueue(l, f, e.draw, e.stopped);
      FlowSends(a, a', b, q, [f], arrived);
      M.SilentLedger(a', pad);
      FlowSends(a', a', b, q + [f], pad, []);
    }
  }

  /** `a` hands one frame to the stack and its connection becomes `a'`. */
  lemma PutKeepsInv(s: Net, limit: nat, f: Frame, e: Env, a': M.Conn)
    requires Inv(s, limit) && !Spent(s.ab)
    requires Valid(f) && |f.payload| <= limit && (f.ftype == TYPE_PING ==> |f.payload| == 8)
    requires M.Sound(a') && M.Ledger(s.a, a', M.If(Put(s, f, e).error.None?, f), [])
    requires f.ftype != TYPE_PONG
    ensures var s' := s.(a := a', ab := Put(s, f, e).link);
            Inv(s', limit) && Same(s.ab, s'.ab)
  {
    var out := M.If(Put(s, f, e).error.None?, f);
    hide Good, SendFrame, InFlight, M.Sound, Valid, M.Ledger, Flow;
    PutFlows(s.a, a', s.b, s.ab, f, e, []);
    FlowIdle(s.a, a', s.b, InFlight(s.ba), out);
    LedgerPongs(s.a, a', out);
  }

  lemma LedgerPongs(a: M.Conn, a': M.Conn, out: seq<Frame>)
    requires M.Ledger(a, a', out, [])
    requires forall i :: 0 <= i < |out| ==> out[i].ftype != TYPE_PONG
    requires |out| <= 1
    ensures a'.log.pongsSent == a.log.pongsSent && a'.log.pingsSeen == a.log.pingsSeen
    ensures a'.isClient == a.isClient && a'.reading == a.reading
  {
    if out != [] {
      M.One(out[0]);
      assert out == [out[0]];
    }
  }

  /** `a` changes only itself, sending nothing. */
  lemma LocalKeepsInv(s: Net, limit: nat, a': M.Conn)
    requires Inv(s, limit) && M.Sound(a') && M.Ledger(s.a, a', [], [])
    ensures Inv(s.(a := a'), limit)
  {
    hide Good, InFlight, M.Sound, M.Ledger, Flow;
    FlowSends(s.a, a', s.b, InFlight(s.ab), [], []);
    assert InFlight(s.ab) + [] == InFlight(s.ab);
    FlowIdle(s.a, a', s.b, InFlight(s.ba), []);
    LedgerPongs(s.a, a', []);
  }

  /** The stack of `a` flushes, accepting no frame. */
  lemma FlushKeepsInv(s: Net, limit: nat, l: Link, pad: seq<Frame>)
    requires Inv(s, limit) && Good(l) && OnlyPadding(pad)
    requires InFlight(l) == InFlight(s.ab) + pad && Same(s.ab, l) && IsShut(l) == IsShut(s.ab)
    requires IsShut(s.ab) ==> pad == []
    ensures Inv(s.(ab := l), limit)
  {
    hide Good, InFlight, M.Sound, M.Ledger, Flow;
    M.SilentLedger(s.a, pad);
    FlowSends(s.a, s.a, s.b, InFlight(s.ab), pad, []);
    if IsShut(s.ab) {
      assert InFlight(s.ab) + [] == InFlight(s.ab);
    }
  }

  lemma SendingStep(s: Net, limit: nat, act: Act)
    requires Inv(s, limit) && Fits(act, limit) && !Spent(s.ab)
    requires act.OpenStream? ==> s.a.log.opens < 0x8000_0000
    requires act.OpenStream? || act.WriteChunk? || act.CloseStream? || act.Ping? || act.Pad?
    ensures Inv(StepA(s, act), limit) && Same(s.ab, StepA(s, act).ab)
  {
    hide Good, InFlight, M.Sound, M.Ledger, Flow, SendFrame, M.OpenStream, M.SendData, M.CloseStream;
    match act {
      case OpenStream(e) =>
        var f := M.MakeFrame(TYPE_STREAM_OPEN, s.a.nextID, []);
        var ok := Put(s, f, e).error.None?;
        M.OpenSound(s.a, ok);
        M.OpenLedger(s.a, ok);
        PutKeepsInv(s, limit, f, e, M.OpenStream(s.a, ok));
      case WriteChunk(id, chunk, e) =>
        if id in s.a.objects && 1 <= |chunk| <= MAX_PAYLOAD {
          var f := M.MakeFrame(TYPE_DATA, id, chunk);
          var ok := Put(s, f, e).error.None?;
          M.SendDataSound(s.a, id, chunk, ok);
          M.SendDataLedger(s.a, id, chunk, ok);
          PutKeepsInv(s, limit, f, e, M.SendData(s.a, id, chunk, ok));
        }
      case CloseStream(id, e) =>
        if id in s.a.objects && !s.a.objects[id].closed {
          var f := M.MakeFrame(TYPE_STREAM_CLOSE, id, []);
          var ok := Put(s, f, e).error.None?;
          M.CloseStreamSound(s.a, id, ok);
          M.CloseStreamLedger(s.a, id, ok);
          PutKeepsInv(s, limit, f, e, M.CloseStream(s.a, id, ok));
        }
      case Ping(cookie, e) =>
        if |cookie| == 8 {
          var f := M.MakeFrame(TYPE_PING, 0, cookie);
          var ok := Put(s, f, e).error.None?;
          M.PingLedger(s.a, cookie, ok);
          M.SameStreams(s.a, M.SendPing(s.a, cookie, ok));
          PutKeepsInv(s, limit, f, e, M.SendPing(s.a, cookie, ok));
        }
      case Pad(payload, e) =>
        if 1 <= |payload| <= MAX_PAYLOAD {
          var f := M.MakeFrame(TYPE_PADDING, 0, payload);
          M.SilentLedger(s.a, M.If(Put(s, f, e).error.None?, f));
          PutKeepsInv(s, limit, f, e, s.a);
        }
    }
  }

  lemma QuietStep(s: Net, limit: nat, act: Act)
    requires Inv(s, limit) && !Spent(s.ab)
    requires act.FireTimer? || act.TickCover? || act.CloseTunnel? || act.CloseConn? || act.ReadStream?
    ensures Inv(StepA(s, act), limit) && Same(s.ab, StepA(s, act).ab)
  {
    hide Good, InFlight, M.Sound, M.Ledger, Flow, Links.FireTimer, Links.TickCover, Shut, Cut, M.Close, M.ReadStream;
    match act {
      case FireTimer(t, draw) =>
        var pad := TimerIsPadding(s.ab, t, draw);
        FlushKeepsInv(s, limit, Links.FireTimer(s.ab, t, draw), pad);
      case TickCover(e) =>
        var pad := CoverIsPadding(s.ab, e.draw, e.stopped);
        FlushKeepsInv(s, limit, Links.TickCover(s.ab, e.draw, e.stopped), pad);
      case CloseTunnel(stopped) =>
        ShutLosesNothing(s.ab, stopped);
        CutKeeps(s.ba);
      case CloseConn =>
        M.CloseSound(s.a);
        M.CloseLedger(s.a);
        LocalKeepsInv(s, limit, M.Close(s.a));
      case ReadStream(id, n) =>
        if id in s.a.objects && S.OffsetOK(s.a.objects[id]) {
          M.ReadSound(s.a, id, n);
          M.ReadLedger(s.a, id, n);
          LocalKeepsInv(s, limit, M.ReadStream(s.a, id, n));
        }
    }
  }

  // ---------- Dispatching ----------

  /** A stream frame never arrives out of place: STREAM_OPEN names a stream that does not exist yet
      and is not the receiver's own, DATA and STREAM_CLOSE name one that does exist. */
  lemma ArrivesInPlace(a: M.Conn, b: M.Conn, qab: seq<Frame>, f: Frame, q: seq<Frame>)
    requires a.isClient != b.isClient && M.Sound(a) && M.Sound(b)
    requires Flow(a, b, qab) && Flow(b, a, [f] + q)
    requires M.EventOf(f).Some?
    ensures f.ftype == TYPE_STREAM_OPEN <==> f.streamID !in a.objects
    ensures f.ftype == TYPE_STREAM_OPEN ==> !M.Own(a.isClient, f.streamID)
  {
    hide S.Sound;
    var k, e := f.streamID, M.EventOf(f).value;
    M.EventsAppend(k, [f], q);
    M.One(f);
    var sent, n := M.Sent(b, k), |M.Seen(a, k)|;
    assert M.Sent(b, k) == M.Seen(a, k) + M.Events(k, [f] + q);
    assert sent[n] == e;
    assert k in b.objects && M.StreamOK(b, k);
    if k in a.objects {
      assert M.StreamOK(a, k);
    }
    hide M.Events;
    if M.Own(b.isClient, k) {
      assert !M.Own(a.isClient, k);
      if n > 0 {
        assert sent[n] == sent[1..][n - 1];
      }
    } else {
      assert e != S.Opened;
      assert M.Sent(a, k) == M.Seen(b, k) + M.Events(k, qab);
      assert M.Sent(a, k) != [];
    }
  }

  lemma DispatchStep(s: Net, limit: nat, e: Env)
    requires Inv(s, limit) && !Spent(s.ab)
    ensures Inv(StepA(s, DispatchOne(e)), limit) && Same(s.ab, StepA(s, DispatchOne(e)).ab)
  {
    hide Good, InFlight, M.Sound, M.Ledger, Flow, Receive, M.Close, Handle;
    if s.a.reading {
      ReceiveIsDequeue(s.ba);
      var r := Receive(s.ba);
      if r.error.Some? && !IsShut(s.ba) && !IsShut(s.ab) {
      } else if r.error.Some? {
        if !IsShut(s.ab) {
          NothingLeft(s.ba);
        }
        M.CloseSound(s.a);
        M.CloseLedger(s.a);
        LocalKeepsInv(s, limit, M.Close(s.a));
        StopKeepsInv(s.(a := M.Close(s.a)), limit);
      } else {
        HandleKeepsInv(s, limit, r.frame.value, r.link, e);
      }
    }
  }

  lemma NothingLeft(l: Link)
    requires Good(l) && !HasNext(l) && !IsCut(l) && IsShut(l)
    ensures InFlight(l) == []
  {
    NothingDecodes();
  }

  lemma StopKeepsInv(s: Net, limit: nat)
    requires Inv(s, limit) && (IsShut(s.ab) || (IsShut(s.ba) && InFlight(s.ba) == []))
    ensures Inv(s.(a := s.a.(reading := false)), limit)
  {
    hide Good, InFlight, M.Sound, Flow;
    SoundReading(s.a);
    FlowReading(s.a, s.b, InFlight(s.ab));
    FlowReading(s.a, s.b, InFlight(s.ba));
  }

  // The flow of frames does not depend on whether a read loop is still running.

  lemma FlowReading(a: M.Conn, b: M.Conn, q: seq<Frame>)
    ensures var a' := a.(reading := false);
            && (Flow(a, b, q) ==> Flow(a', b, q))
            && (Flow(b, a, q) ==> Flow(b, a', q))
  {
    hide M.Events, M.OfType;
    var a' := a.(reading := false);
    assert forall k :: M.Sent(a', k) == M.Sent(a, k) && M.Seen(a', k) == M.Seen(a, k);
  }

  lemma SoundReading(a: M.Conn)
    requires M.Sound(a)
    ensures M.Sound(a.(reading := false))
  {
    M.SameStreams(a, a.(reading := false));
  }

  lemma HandleKeepsInv(s: Net, limit: nat, f: Frame, l: Link, e: Env)
    requires Inv(s, limit) && !Spent(s.ab)
    requires Valid(f) && Good(l) && InFlight(s.ba) == [f] + InFlight(l) && SameEnds(s.ba, l)
    ensures var s' := Handle(s.(ba := l), f, e);
            Inv(s', limit) && Same(s.ab, s'.ab)
  {
    var qab, q := InFlight(s.ab), InFlight(l);
    assert f.ftype == TYPE_PING ==> |f.payload| == 8 by {
      assert ([f] + q)[0] == f;
    }
    hide Good, InFlight, Flow, M.Dispatch, Valid, M.Ledger, M.Sound, M.EventOf, Inv, M.Own;
    OpensAreEvents(f);
    if M.EventOf(f).Some? {
      InvPlaces(s, limit, f, q);
    }
    match M.Reply(f) {
      case None => SilentKeepsInv(s, limit, f, l);
      case Some(g) => ReplyKeepsInv(s, limit, f, l, e);
    }
  }

  lemma InvPlaces(s: Net, limit: nat, f: Frame, q: seq<Frame>)
    requires Inv(s, limit) && InFlight(s.ba) == [f] + q && M.EventOf(f).Some?
    ensures InPlace(s.a, f)
  {
    ArrivesInPlace(s.a, s.b, InFlight(s.ab), f, q);
  }

  predicate InPlace(a: M.Conn, f: Frame) {
    && (M.EventOf(f).Some? ==> (f.ftype == TYPE_STREAM_OPEN <==> f.streamID !in a.objects))
    && (f.ftype == TYPE_STREAM_OPEN ==> !M.Own(a.isClient, f.streamID))
  }

  /** What dispatching a frame in its place does to the connection. */
  lemma ArrivalFacts(a: M.Conn, f: Frame, ok: bool)
    requires M.Sound(a) && InPlace(a, f)
    ensures var a' := M.Dispatch(a, f, ok);
            && M.Sound(a') && a'.isClient == a.isClient && a'.reading == a.reading
            && M.Ledger(a, a', if ok && M.Reply(f).Some? then [M.Reply(f).value] else [], [f])
            && (M.Reply(f).None? || ok ==>
                  (a.log.pongsSent == a.log.pingsSeen ==> a'.log.pongsSent == a'.log.pingsSeen))
  {
    OpensAreEvents(f);
    hide M.Dispatch, M.Ledger, M.Sound, M.EventOf;
    M.DispatchSound(a, f, ok);
    M.DispatchLedger(a, f, ok);
    RepliesCounted(a, f, ok);
  }

  lemma SilentKeepsInv(s: Net, limit: nat, f: Frame, l: Link)
    requires Inv(s, limit) && InPlace(s.a, f) && M.Reply(f).None?
    requires Good(l) && InFlight(s.ba) == [f] + InFlight(l) && SameEnds(s.ba, l)
    ensures Inv(s.(ba := l, a := M.Dispatch(s.a, f, false)), limit)
  {
    hide Good, InFlight, Flow, M.Dispatch, M.Ledger, M.Sound, M.EventOf, InPlace;
    var a' := M.Dispatch(s.a, f, false);
    ArrivalFacts(s.a, f, false);
    FlowArrives(s.a, a', s.b, f, InFlight(l), []);
    FlowSends(s.a, a', s.b, InFlight(s.ab), [], [f]);
    assert InFlight(s.ab) + [] == InFlight(s.ab);
  }

  lemma ReplyKeepsInv(s: Net, limit: nat, f: Frame, l: Link, e: Env)
    requires Inv(s, limit) && InPlace(s.a, f) && M.Reply(f).Some? && !Spent(s.ab)
    requires |f.payload| == 8
    requires Good(l) && InFlight(s.ba) == [f] + InFlight(l) && SameEnds(s.ba, l)
    ensures var s' := Handle(s.(ba := l), f, e);
            Inv(s', limit) && Same(s.ab, s'.ab)
  {
    hide Good, InFlight, Flow, SendFrame, M.Dispatch, Valid, M.Ledger, M.Sound, InPlace, M.Reply, M.If, Handle;
    var g := M.Reply(f).value;
    ReplyShape(s.(ba := l), f, e);
    var ok := SendFrame(s.ab, g, e.draw, e.stopped).error.None?;
    var a' := M.Dispatch(s.a, f, ok);
    ArrivalFacts(s.a, f, ok);
    FlowArrives(s.a, a', s.b, f, InFlight(l), M.If(ok, g));
    PutFlows(s.a, a', s.b, s.ab, g, e, [f]);
  }

  lemma ReplyShape(s: Net, f: Frame, e: Env)
    requires M.Reply(f).Some? && |f.payload| == 8
    ensures var g := M.Reply(f).value;
            var r := SendFrame(s.ab, g, e.draw, e.stopped);
            var ok := r.error.None?;
            && Valid(g) && g.ftype != TYPE_PING && |g.payload| == 8
            && Handle(s, f, e) == Net(M.Dispatch(s.a, f, ok), s.b, r.link, s.ba)
            && M.If(ok, g) == if ok && M.Reply(f).Some? then [M.Reply(f).value] else []
  {
  }

  lemma OpensAreEvents(f: Frame)
    ensures f.ftype == TYPE_STREAM_OPEN ==> M.EventOf(f).Some?
  {
  }

  lemma RepliesCounted(c: M.Conn, f: Frame, ok: bool)
    ensures var c' := M.Dispatch(c, f, ok);
            && c'.isClient == c.isClient && c'.reading == c.reading
            && (M.Reply(f).None? || ok ==>
                  (c.log.pongsSent == c.log.pingsSeen ==> c'.log.pongsSent == c'.log.pingsSeen))
  {
  }

  // ---------- Every step, every run ----------

  lemma StepAKeepsInv(s: Net, limit: nat, act: Act)
    requires Inv(s, limit) && Fits(act, limit) && !Spent(s.ab)
    requires act.OpenStream? ==> s.a.log.opens < 0x8000_0000
    ensures Inv(StepA(s, act), limit) && Same(s.ab, StepA(s, act).ab)
  {
    hide StepA, Inv;
    match act {
      case DispatchOne(e) => DispatchStep(s, limit, e);
      case OpenStream(_) => SendingStep(s, limit, act);
      case WriteChunk(_, _, _) => SendingStep(s, limit, act);
      case CloseStream(_, _) => SendingStep(s, limit, act);
      case Ping(_, _) => SendingStep(s, limit, act);
      case Pad(_, _) => SendingStep(s, limit, act);
      case _ => QuietStep(s, limit, act);
    }
  }
}
