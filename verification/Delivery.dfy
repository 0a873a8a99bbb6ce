/** What the two-endpoint network delivers, in every state that any run reaches. */
module Delivery {
  import opened Bytes
  import opened Codec
  import opened Crypto
  import opened Links
  import opened Network
  import C = Coalesce
  import S = Streams
  import M = Mux

  // ---------- Every reachable state satisfies the invariant ----------

  function Opens(xs: seq<Action>, byA: bool): nat {
    if xs == [] then 0
    else (if xs[0].act.OpenStream? && xs[0].byA == byA then 1 else 0) + Opens(xs[1..], byA)
  }

  /** The run stays below the two counters' limits: fewer than 2^64 - 1 steps, so that no nonce runs
      out, and at most 2^31 opens a side, so that no stream id is used twice. */
  predicate WithinLimits(s: Net, xs: seq<Action>) {
    && Room(s.ab, |xs|) && Room(s.ba, |xs|)
    && s.a.log.opens + Opens(xs, true) <= 0x8000_0000
    && s.b.log.opens + Opens(xs, false) <= 0x8000_0000
  }

  predicate AllFit(xs: seq<Action>, limit: nat) {
    forall i :: 0 <= i < |xs| ==> Fits(xs[i].act, limit)
  }

  lemma ReceiveKeepsNonce(l: Link)
    ensures forall n :: Room(Receive(l).link, n) == Room(l, n)
  {
  }

  lemma StepAFrame(s: Net, act: Act)
    ensures var s' := StepA(s, act);
            && s'.b == s.b && (forall n :: Room(s'.ba, n) == Room(s.ba, n))
            && s'.a.log.opens == s.a.log.opens + if act.OpenStream? then 1 else 0
  {
    hide SendFrame, Receive, Links.FireTimer, Links.TickCover, Shut, S.AfterRead, S.DeliverErr, S.Arrive;
    ReceiveKeepsNonce(s.ba);
  }

  lemma {:induction false} RunKeepsInv(s: Net, xs: seq<Action>, limit: nat)
    requires Inv(s, limit) && WithinLimits(s, xs) && AllFit(xs, limit)
    ensures Inv(Run(s, xs), limit)
    decreases |xs|
  {
    if xs != [] {
      hide Inv, StepA, Fits, Flip;
      StepKeepsInv(s, xs, limit);
      RunKeepsInv(Step(s, xs[0]), xs[1..], limit);
    }
  }

  lemma StepKeepsInv(s: Net, xs: seq<Action>, limit: nat)
    requires xs != [] && Inv(s, limit) && WithinLimits(s, xs) && AllFit(xs, limit)
    ensures var s' := Step(s, xs[0]);
            Inv(s', limit) && WithinLimits(s', xs[1..]) && AllFit(xs[1..], limit)
  {
    hide Inv, StepA;
    var x := xs[0];
    var t := if x.byA then s else Flip(s);
    FlipInv(s, limit);
    StepAKeepsInv(t, limit, x.act);
    StepAFrame(t, x.act);
    FlipInv(StepA(t, x.act), limit);
  }

  // ---------- Exactly once, in order ----------

  /** The messages `c` has sent on stream `k`: the chunks its encoder accepted. */
  function Messages(c: M.Conn, k: u32): seq<bytes> {
    S.Payloads(M.Sent(c, k))
  }

  lemma {:induction false} PayloadsAppend(es: seq<S.Event>, fs: seq<S.Event>)
    ensures S.Payloads(es + fs) == S.Payloads(es) + S.Payloads(fs)
    decreases |fs|
  {
    if fs == [] {
      assert es + fs == es;
    } else {
      var init, last := fs[..|fs| - 1], fs[|fs| - 1];
      PayloadsAppend(es, init);
      assert (es + fs)[..|es + fs| - 1] == es + init;
      var p := match last case Data(p) => [p] case _ => [];
      assert S.Payloads(es) + (S.Payloads(init) + p) == (S.Payloads(es) + S.Payloads(init)) + p;
    }
  }

  /** The bytes enqueued at a stream and not read yet. */
  function Unread(s: S.Stream): bytes
    requires S.OffsetOK(s)
  {
    if s.readMsgs == [] then [] else s.readMsgs[0][s.readOff..] + Concat(s.readMsgs[1..])
  }

  /** While the receiving stream has not ended: the messages sent are those enqueued at the receiver
      followed by those still in flight, first the ones its decoder can already reach (opened, or
      sealed on the wire), then the ones in the sender's buffer. The same holds of their bytes, of
      which the first were read. */
  lemma Conservation(s: Net, limit: nat, k: u32)
    requires Inv(s, limit) && k in s.b.objects && s.b.objects[k].log.cause.None?
    ensures var o := s.b.objects[k];
            var near, far := S.Payloads(M.Events(k, Near(s.ab))),
                             S.Payloads(M.Events(k, Far(s.ab)));
            && Messages(s.a, k) == o.log.got + near + far
            && S.OffsetOK(o)
            && Concat(Messages(s.a, k)) == o.log.taken + Unread(o) + Concat(near) + Concat(far)
  {
    assert M.StreamOK(s.b, k);
    var o := s.b.objects[k];
    var ready, buffered := Near(s.ab), Far(s.ab);
    M.EventsAppend(k, ready, buffered);
    assert M.Sent(s.a, k) == o.log.seen + M.Events(k, InFlight(s.ab));
    hide Inv, M.Sent, M.Events, S.Payloads, DecodeAll, Concat, S.QueueSound;
    PayloadsAppend(o.log.seen, M.Events(k, ready) + M.Events(k, buffered));
    PayloadsAppend(M.Events(k, ready), M.Events(k, buffered));
    ConservationOfBytes(o, S.Payloads(M.Events(k, ready)), S.Payloads(M.Events(k, buffered)));
  }

  lemma ConservationOfBytes(o: S.Stream, near: seq<bytes>, far: seq<bytes>)
    requires S.Sound(o)
    ensures o.log.got + (near + far) == o.log.got + near + far
    ensures Concat(o.log.got + near + far) == o.log.taken + Unread(o) + Concat(near) + Concat(far)
  {
    hide S.SourceSound, S.QueueSound;
    S.Conserved(o);
    ConcatAppend(o.log.got + near, far);
    ConcatAppend(o.log.got, near);
  }

  /** Before the receiver knows the stream, everything ever sent on it is in flight, beginning with
      its STREAM_OPEN. */
  lemma ConservationBeforeOpen(s: Net, limit: nat, k: u32)
    requires Inv(s, limit) && k in s.a.objects && k !in s.b.objects
    ensures M.Own(s.a.isClient, k)
    ensures M.Events(k, InFlight(s.ab)) == M.Sent(s.a, k)
    ensures M.OpensOnce(M.Events(k, InFlight(s.ab)))
  {
    assert M.StreamOK(s.a, k);
    hide S.Sound, Good, InFlight, M.Events;
    assert M.Sent(s.a, k) == M.Seen(s.b, k) + M.Events(k, InFlight(s.ab));
    assert M.Sent(s.b, k) == M.Seen(s.a, k) + M.Events(k, InFlight(s.ba));
  }

  lemma {:induction false} BeforeClosePrefix(es: seq<S.Event>, fs: seq<S.Event>)
    ensures S.BeforeClose(es) <= es
    ensures S.Closed in es ==> S.BeforeClose(es + fs) == S.BeforeClose(es)
    ensures S.BeforeClose(es) <= S.BeforeClose(es + fs)
    decreases |es| + |fs|
  {
    if fs == [] {
      assert es + fs == es;
      if es != [] {
        BeforeClosePrefix(es[..|es| - 1], []);
      }
    } else {
      var init, last := fs[..|fs| - 1], fs[|fs| - 1];
      assert es + fs == (es + init) + [last];
      BeforeClosePrefix(es, init);
      BeforeClosePrefix(es + init, []);
      S.BeforeCloseSnoc(es + init, last);
    }
  }

  lemma PayloadsPrefix(es: seq<S.Event>, fs: seq<S.Event>)
    requires es <= fs
    ensures S.Payloads(es) <= S.Payloads(fs)
  {
    PayloadsAppend(es, fs[|es|..]);
    assert es + fs[|es|..] == fs;
  }

  /** At all times, also after either side closed: what the receiver got is a prefix of what was
      sent, and so are the bytes read; no read returned parts of two messages, and a reader whose
      buffers had room got the messages themselves. */
  lemma AlwaysAPrefix(s: Net, limit: nat, k: u32)
    requires Inv(s, limit) && k in s.b.objects
    ensures var o := s.b.objects[k];
            && o.log.got <= Messages(s.a, k)
            && o.log.taken <= Concat(Messages(s.a, k))
            && (o.log.roomy ==> o.log.results <= Messages(s.a, k))
  {
    var o := s.b.objects[k];
    assert M.StreamOK(s.b, k);
    assert M.Sent(s.a, k) == o.log.seen + M.Events(k, InFlight(s.ab));
    hide Inv, M.Sent, M.Events, InFlight, S.Payloads, S.BeforeClose;
    var sent := M.Sent(s.a, k);
    BeforeClosePrefix(o.log.seen, []);
    PayloadsPrefix(S.BeforeClose(o.log.seen), sent);
    PayloadsPrefix(o.log.seen, sent);
    ReadsArePrefix(o, Messages(s.a, k));
  }

  lemma ReadsArePrefix(o: S.Stream, all: seq<bytes>)
    requires S.Sound(o) && o.log.got <= all
    ensures o.log.taken <= Concat(all)
    ensures o.log.roomy ==> o.log.results <= all
  {
    hide S.SourceSound;
    S.Conserved(o);
    ConcatAppend(o.log.got, all[|o.log.got|..]);
    assert o.log.got + all[|o.log.got|..] == all;
  }

  /** A stream that its peer closed received every message sent before the close. A reader that is
      told of the end has read exactly their bytes. */
  lemma EverythingBeforeClose(s: Net, limit: nat, k: u32, n: nat)
    requires Inv(s, limit) && k in s.b.objects && s.b.objects[k].log.cause == Some(S.ByPeer)
    ensures var o := s.b.objects[k];
            && S.Closed in M.Sent(s.a, k)
            && o.log.got == S.Payloads(S.BeforeClose(M.Sent(s.a, k)))
            && S.OffsetOK(o)
            && (S.ReadOutcome(o, n).Failed? ==>
                  o.log.taken == Concat(S.Payloads(S.BeforeClose(M.Sent(s.a, k)))))
  {
    var o := s.b.objects[k];
    assert M.StreamOK(s.b, k);
    assert M.Sent(s.a, k) == o.log.seen + M.Events(k, InFlight(s.ab));
    BeforeClosePrefix(o.log.seen, M.Events(k, InFlight(s.ab)));
    hide Inv, M.Sent, M.Events, InFlight, S.Payloads, S.BeforeClose, Concat;
    S.EndIsPermanent(o, n, S.Closed, true, S.ByOwner);
  }

  // ---------- Frames find their stream ----------

  lemma {:induction false} FirstEventFirst(k: u32, q: seq<Frame>, i: nat)
    requires i < |q| && q[i].streamID == k && M.EventOf(q[i]).Some?
    requires M.Events(k, q) != [] && M.Events(k, q)[0] == S.Opened
    ensures exists j :: 0 <= j <= i && q[j].streamID == k && q[j].ftype == TYPE_STREAM_OPEN
  {
    var f := q[0];
    if f.streamID == k && M.EventOf(f).Some? {
      assert M.Events(k, q)[0] == M.EventOf(f).value;
      assert f.ftype == TYPE_STREAM_OPEN;
    } else {
      FirstEventFirst(k, q[1..], i - 1);
      var j :| 0 <= j <= i - 1 && q[1..][j].streamID == k && q[1..][j].ftype == TYPE_STREAM_OPEN;
      assert q[j + 1] == q[1..][j];
    }
  }

  /** Every DATA or STREAM_CLOSE frame in flight names a stream that the receiver has, in its table
      unless a STREAM_CLOSE came before, or whose STREAM_OPEN is ahead of it in the same direction. */
  lemma FramesFindTheirStream(s: Net, limit: nat, i: nat)
    requires Inv(s, limit) && i < |InFlight(s.ab)|
    requires var t := InFlight(s.ab)[i].ftype; t == TYPE_DATA || t == TYPE_STREAM_CLOSE
    ensures var q := InFlight(s.ab);
            var k := q[i].streamID;
            || (k in s.b.objects && (k in s.b.table || S.Closed in s.b.objects[k].log.seen))
            || exists j :: 0 <= j < i && q[j].streamID == k && q[j].ftype == TYPE_STREAM_OPEN
  {
    hide S.Sound, Good, InFlight, M.Events, M.EventOf, M.OfType;
    var q := InFlight(s.ab);
    var k := q[i].streamID;
    DataIsEvent(q[i]);
    EventsNonEmpty(k, q, i);
    assert M.Sent(s.a, k) == M.Seen(s.b, k) + M.Events(k, q);
    assert k in s.a.objects;
    if k in s.b.objects {
      assert M.StreamOK(s.b, k);
    } else {
      ConservationBeforeOpen(s, limit, k);
      FirstEventFirst(k, q, i);
    }
  }

  lemma DataIsEvent(f: Frame)
    requires f.ftype == TYPE_DATA || f.ftype == TYPE_STREAM_CLOSE
    ensures M.EventOf(f).Some?
  {
  }

  lemma {:induction false} EventsNonEmpty(k: u32, q: seq<Frame>, i: nat)
    requires i < |q| && q[i].streamID == k && M.EventOf(q[i]).Some?
    ensures M.Events(k, q) != []
  {
    if i > 0 {
      EventsNonEmpty(k, q[1..], i - 1);
    }
  }

  // ---------- Pings ----------

  /** Every ping comes back once, in order, with its own cookie: the cookies sent are those already
      returned, then those in PONGs on the way back, then those in PINGs on the way out. */
  lemma PingsReturnOnce(s: Net, limit: nat)
    requires Inv(s, limit) && !IsShut(s.ba)
    ensures s.a.log.pingsSent ==
            s.a.log.pongsSeen + M.OfType(TYPE_PONG, InFlight(s.ba)) + M.OfType(TYPE_PING, InFlight(s.ab))
  {
  }

  // ---------- Streams that nobody closes ----------

  /** The act can end stream `k` in the direction that `a` sends (`toB`) or `b` does: one side closes
      the stream, either side closes its tunnel, or the receiver closes its connection. */
  predicate CanEnd(x: Action, k: u32, toB: bool) {
    || x.act.CloseTunnel?
    || (x.act.CloseStream? && x.act.id == k)
    || (x.act.CloseConn? && x.byA != toB)
  }

  predicate NoneEnds(xs: seq<Action>, k: u32, toB: bool) {
    forall i :: 0 <= i < |xs| ==> !CanEnd(xs[i], k, toB)
  }

  function Oriented(s: Net, toB: bool): Net {
    if toB then s else Flip(s)
  }

  /** Stream `k` has not ended on its way from `a` to `b`, nor is its end on the way. */
  predicate Ongoing(s: Net, k: u32) {
    && !IsShut(s.ab) && !IsShut(s.ba) && s.b.reading && !s.b.done
    && S.Closed !in M.Sent(s.a, k)
    && (k in s.b.objects ==> s.b.objects[k].log.cause.None?)
  }

  lemma StartOngoing(s: Net, k: u32)
    requires !IsShut(s.ab) && !IsShut(s.ba) && s.a == M.New(s.a.isClient) && s.b == M.New(s.b.isClient)
    ensures Ongoing(s, k) && Ongoing(Flip(s), k)
  {
  }

  lemma ShutOnlyByClosing(s: Net, act: Act)
    requires !act.CloseTunnel?
    ensures var t := StepA(s, act);
            IsShut(t.ab) == IsShut(s.ab) && IsShut(t.ba) == IsShut(s.ba)
  {
    hide SendFrame, Receive, Links.FireTimer, Links.TickCover, M.Dispatch, M.Close, M.StopReading;
    SendingKeepsOpen(s.ab);
    ReceivingKeepsOpen(s.ba);
  }

  lemma SendingKeepsOpen(l: Link)
    ensures forall f, draw, stopped :: IsShut(SendFrame(l, f, draw, stopped).link) == IsShut(l)
    ensures forall t, draw :: IsShut(Links.FireTimer(l, t, draw)) == IsShut(l)
    ensures forall draw, stopped :: IsShut(Links.TickCover(l, draw, stopped)) == IsShut(l)
  {
    hide Encode, C.Padding, C.PadBytes, Emit;
  }

  lemma ReceivingKeepsOpen(l: Link)
    ensures IsShut(Receive(l).link) == IsShut(l)
  {
  }

  /** Only a Close of the stream sends its STREAM_CLOSE. */
  lemma ClosedOnlyByClosing(s: Net, act: Act, k: u32)
    requires S.Closed !in M.Sent(s.a, k) && (act.CloseStream? ==> act.id != k)
    ensures S.Closed !in M.Sent(StepA(s, act).a, k)
  {
    hide SendFrame, Receive, Links.FireTimer, Links.TickCover, Shut, S.DeliverData, S.DeliverErr, S.AfterRead;
    KeepSent();
  }

  lemma KeepSent()
    ensures forall s, data :: S.DeliverData(s, data).log.sent == s.log.sent
    ensures forall s, cause :: S.DeliverErr(s, cause).log.sent == s.log.sent
    ensures forall s, n :: S.OffsetOK(s) ==> S.AfterRead(s, n).log.sent == s.log.sent
  {
  }

  /** Nothing the sender does ends the stream, but closing it or the tunnel. */
  lemma SenderKeepsOngoing(s: Net, act: Act, k: u32)
    requires Ongoing(s, k) && !act.CloseTunnel? && (act.CloseStream? ==> act.id != k)
    ensures Ongoing(StepA(s, act), k)
  {
    hide StepA, M.Sent;
    StepAFrame(s, act);
    ShutOnlyByClosing(s, act);
    ClosedOnlyByClosing(s, act, k);
  }

  /** The receiving connection of an ongoing stream. */
  predicate Hears(c: M.Conn, k: u32) {
    c.reading && !c.done && (k in c.objects ==> c.objects[k].log.cause.None?)
  }

  /** Nothing the receiver does ends the stream, but closing it, the connection or the tunnel: what it
      dispatches cannot, for no STREAM_CLOSE of it is on its way. */
  lemma ReceiverKeepsOngoing(s: Net, limit: nat, act: Act, k: u32)
    requires Inv(s, limit) && Ongoing(s, k)
    requires !act.CloseTunnel? && !act.CloseConn? && (act.CloseStream? ==> act.id != k)
    ensures Ongoing(Flip(StepA(Flip(s), act)), k)
  {
    hide Inv, StepA, M.Sent;
    StepAFrame(Flip(s), act);
    ShutOnlyByClosing(Flip(s), act);
    if act.DispatchOne? {
      StillHearsFrame(s, limit, act.e, k);
    } else {
      StillHears(Flip(s), act, k);
    }
  }

  lemma StillHears(s: Net, act: Act, k: u32)
    requires Hears(s.a, k) && !act.DispatchOne? && !act.CloseConn? && (act.CloseStream? ==> act.id != k)
    ensures Hears(StepA(s, act).a, k)
  {
    hide SendFrame, Receive, Links.FireTimer, Links.TickCover, Shut, S.AfterRead, S.DeliverErr;
    assert forall o, n :: S.OffsetOK(o) ==> S.AfterRead(o, n).log.cause == o.log.cause by { KeepCause(); }
  }

  lemma KeepCause()
    ensures forall o, n :: S.OffsetOK(o) ==> S.AfterRead(o, n).log.cause == o.log.cause
  {
  }

  lemma StillHearsFrame(s: Net, limit: nat, e: Env, k: u32)
    requires Inv(s, limit) && Ongoing(s, k)
    ensures Hears(StepA(Flip(s), DispatchOne(e)).a, k)
  {
    hide Good, InFlight, SendFrame, Receive, M.Dispatch, M.Sound, M.Sent, HasNext;
    ReceiveIsDequeue(s.ab);
    if HasNext(s.ab) {
      var f := Receive(s.ab).frame.value;
      if f.ftype == TYPE_STREAM_CLOSE && f.streamID == k {
        ItsCloseWasSent(s.a, s.b, f, InFlight(Receive(s.ab).link), k);
      }
      HearsFrame(s.b, f, false, k);
      HearsFrame(s.b, f, true, k);
    }
  }

  lemma ItsCloseWasSent(a: M.Conn, b: M.Conn, f: Frame, q: seq<Frame>, k: u32)
    requires Flow(a, b, [f] + q) && f.ftype == TYPE_STREAM_CLOSE && f.streamID == k
    ensures S.Closed in M.Sent(a, k)
  {
    M.EventsAppend(k, [f], q);
    M.One(f);
    var sent, n := M.Sent(a, k), |M.Seen(b, k)|;
    assert sent == M.Seen(b, k) + M.Events(k, [f] + q);
    assert sent[n] == S.Closed;
  }

  lemma HearsFrame(c: M.Conn, f: Frame, ok: bool, k: u32)
    requires Hears(c, k) && !(f.ftype == TYPE_STREAM_CLOSE && f.streamID == k)
    ensures Hears(M.Dispatch(c, f, ok), k)
  {
  }

  lemma StepKeepsOngoing(s: Net, limit: nat, x: Action, k: u32, toB: bool)
    requires Inv(s, limit) && Ongoing(Oriented(s, toB), k) && !CanEnd(x, k, toB)
    ensures Ongoing(Oriented(Step(s, x), toB), k)
  {
    hide Inv, StepA, Ongoing;
    FlipInv(s, limit);
    if x.byA == toB {
      SenderKeepsOngoing(Oriented(s, toB), x.act, k);
    } else {
      ReceiverKeepsOngoing(Oriented(s, toB), limit, x.act, k);
    }
  }

  /** A stream that nobody ends goes on: this says of a run, by its acts, which streams are still alive
      at its end. */
  lemma {:induction false} RunKeepsOngoing(s: Net, xs: seq<Action>, limit: nat, k: u32, toB: bool)
    requires Inv(s, limit) && WithinLimits(s, xs) && AllFit(xs, limit)
    requires Ongoing(Oriented(s, toB), k) && NoneEnds(xs, k, toB)
    ensures Ongoing(Oriented(Run(s, xs), toB), k)
    decreases |xs|
  {
    hide Inv, StepA, Ongoing, Fits, Flip, CanEnd, WithinLimits, AllFit;
    if xs != [] {
      StepKeepsInv(s, xs, limit);
      StepKeepsOngoing(s, limit, xs[0], k, toB);
      RunKeepsOngoing(Step(s, xs[0]), xs[1..], limit, k, toB);
    }
  }

  /** Every message sent from `a` to `b` on stream `k` was enqueued, or is in flight behind those that
      were; the same of the bytes, of which the first were read. Before `b` knows the stream, all its
      events are in flight. */
  ghost predicate Conserved(s: Net, k: u32) {
    var flying := M.Events(k, InFlight(s.ab));
    if k in s.b.objects then
      var o := s.b.objects[k];
      && S.OffsetOK(o) && o.log.cause.None?
      && Messages(s.a, k) == o.log.got + S.Payloads(flying)
      && Concat(Messages(s.a, k)) == o.log.taken + Unread(o) + Concat(S.Payloads(flying))
    else M.Sent(s.a, k) == flying
  }

  lemma OngoingIsConserved(s: Net, limit: nat, k: u32)
    requires Inv(s, limit) && Ongoing(s, k)
    ensures Conserved(s, k)
  {
    hide Inv, M.Sent, M.Events, M.Sound, S.Payloads, Concat, Messages, InFlight, Near, Far, Unread;
    if k in s.b.objects {
      Conservation(s, limit, k);
      InFlightParts(s.ab, k);
    } else {
      Unknown(s, limit, k);
    }
  }

  lemma Unknown(s: Net, limit: nat, k: u32)
    requires Inv(s, limit) && k !in s.b.objects
    ensures M.Sent(s.a, k) == M.Events(k, InFlight(s.ab))
  {
    hide M.Sound, Good, InFlight, M.Events;
    assert M.Sent(s.a, k) == M.Seen(s.b, k) + M.Events(k, InFlight(s.ab));
  }

  /** From the start of a connection, streams that nobody ends are conserved, both ways. */
  lemma RunConserves(s: Net, xs: seq<Action>, limit: nat)
    requires Inv(s, limit) && WithinLimits(s, xs) && AllFit(xs, limit)
    requires !IsShut(s.ab) && !IsShut(s.ba) && s.a == M.New(s.a.isClient) && s.b == M.New(s.b.isClient)
    ensures forall k, toB :: NoneEnds(xs, k, toB) ==> Conserved(Oriented(Run(s, xs), toB), k)
  {
    hide Inv, Conserved, NoneEnds, WithinLimits, AllFit, Ongoing, Run;
    RunKeepsInv(s, xs, limit);
    FlipInv(Run(s, xs), limit);
    forall k, toB | NoneEnds(xs, k, toB)
      ensures Conserved(Oriented(Run(s, xs), toB), k)
    {
      StartOngoing(s, k);
      RunKeepsOngoing(s, xs, limit, k, toB);
      OngoingIsConserved(Oriented(Run(s, xs), toB), limit, k);
    }
  }

  // ---------- The headline, for every run of the deployed system ----------

  /** What a direction owes its streams: those the receiver has, and those it does not know yet, all
      of whose events are still in flight, beginning with the STREAM_OPEN. */
  ghost predicate Faithful(a: M.Conn, b: M.Conn, ab: Link) {
    && (forall k :: k in b.objects ==> FaithfulStream(b.objects[k], M.Sent(a, k), M.Events(k, InFlight(ab))))
    && (forall k :: k in a.objects && k !in b.objects ==>
          M.Events(k, InFlight(ab)) == M.Sent(a, k) && M.OpensOnce(M.Sent(a, k)))
  }

  /** What stream `o` owes the events `sent` on it, of which `flying` are still in flight. */
  ghost predicate FaithfulStream(o: S.Stream, sent: seq<S.Event>, flying: seq<S.Event>) {
    && S.OffsetOK(o)
    && o.log.got <= S.Payloads(sent)
    && o.log.taken <= Concat(S.Payloads(sent))
    && (o.log.roomy ==> o.log.results <= S.Payloads(sent))
    && (o.log.cause.None? ==>
          && S.Payloads(sent) == o.log.got + S.Payloads(flying)
          && Concat(S.Payloads(sent)) == o.log.taken + Unread(o) + Concat(S.Payloads(flying)))
    && (o.log.cause == Some(S.ByPeer) ==> o.log.got == S.Payloads(S.BeforeClose(sent)))
  }

  lemma InvIsFaithful(s: Net, limit: nat)
    requires Inv(s, limit)
    ensures Faithful(s.a, s.b, s.ab)
  {
    hide Inv, M.Sent, M.Events, S.Payloads, S.BeforeClose, Concat, DecodeAll;
    forall k | k in s.b.objects
      ensures FaithfulStream(s.b.objects[k], M.Sent(s.a, k), M.Events(k, InFlight(s.ab)))
    {
      var o := s.b.objects[k];
      OffsetInside(s, limit, k);
      AlwaysAPrefix(s, limit, k);
      if o.log.cause.None? {
        Conservation(s, limit, k);
        InFlightParts(s.ab, k);
      }
      if o.log.cause == Some(S.ByPeer) {
        EverythingBeforeClose(s, limit, k, 0);
      }
    }
    forall k | k in s.a.objects && k !in s.b.objects
      ensures M.Events(k, InFlight(s.ab)) == M.Sent(s.a, k) && M.OpensOnce(M.Sent(s.a, k))
    {
      ConservationBeforeOpen(s, limit, k);
    }
  }

  lemma OffsetInside(s: Net, limit: nat, k: u32)
    requires Inv(s, limit) && k in s.b.objects
    ensures S.OffsetOK(s.b.objects[k])
  {
  }

  lemma InFlightParts(l: Link, k: u32)
    ensures var near, far := S.Payloads(M.Events(k, Near(l))),
                             S.Payloads(M.Events(k, Far(l)));
            var both := S.Payloads(M.Events(k, InFlight(l)));
            both == near + far && Concat(both) == Concat(near) + Concat(far)
  {
    var ready, buffered := Near(l), Far(l);
    M.EventsAppend(k, ready, buffered);
    PayloadsAppend(M.Events(k, ready), M.Events(k, buffered));
    ConcatAppend(S.Payloads(M.Events(k, ready)), S.Payloads(M.Events(k, buffered)));
  }

  /** The deployed system right after the handshake. */
  function Deployed(first: CipherState, second: CipherState): Net {
    Start(C.DEPLOYED, C.DEPLOYED, first, second)
  }

  /** Under the configuration both commands use, with frames of at most 60133 payload bytes, every
      run of the two endpoints keeps both directions faithful; and every stream that no act of the run
      ends is conserved exactly. */
  lemma EveryRunIsFaithful(first: CipherState, second: CipherState, xs: seq<Action>)
    requires WithinLimits(Deployed(first, second), xs) && AllFit(xs, 60133)
    ensures var s := Run(Deployed(first, second), xs);
            Inv(s, 60133) && Faithful(s.a, s.b, s.ab) && Faithful(s.b, s.a, s.ba)
    ensures forall k, toB :: NoneEnds(xs, k, toB) ==> Conserved(Oriented(Run(Deployed(first, second), xs), toB), k)
  {
    hide Inv, Run, Faithful, Conserved, NoneEnds;
    StartInv(C.DEPLOYED, C.DEPLOYED, first, second, 60133);
    RunKeepsInv(Deployed(first, second), xs, 60133);
    BothFaithful(Run(Deployed(first, second), xs), 60133);
    RunConserves(Deployed(first, second), xs, 60133);
  }

  /** Over a bare transport the same holds with frames of every size. */
  lemma EveryBareRunIsFaithful(xs: seq<Action>)
    requires WithinLimits(BARE_START, xs)
    ensures var s := Run(BARE_START, xs);
            Inv(s, MAX_PAYLOAD) && Faithful(s.a, s.b, s.ab) && Faithful(s.b, s.a, s.ba)
    ensures forall k, toB :: NoneEnds(xs, k, toB) ==> Conserved(Oriented(Run(BARE_START, xs), toB), k)
  {
    hide Inv, Run, Faithful, Conserved, NoneEnds;
    BareStartInv(MAX_PAYLOAD);
    RunKeepsInv(BARE_START, xs, MAX_PAYLOAD);
    BothFaithful(Run(BARE_START, xs), MAX_PAYLOAD);
    RunConserves(BARE_START, xs, MAX_PAYLOAD);
  }

  lemma BothFaithful(s: Net, limit: nat)
    requires Inv(s, limit)
    ensures Faithful(s.a, s.b, s.ab) && Faithful(s.b, s.a, s.ba)
  {
    hide Inv, Faithful;
    FlipInv(s, limit);
    InvIsFaithful(s, limit);
    InvIsFaithful(Flip(s), limit);
  }
}
