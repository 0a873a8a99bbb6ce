/** What an end that closes its tunnel leaves behind: closing ends both directions at that end, so the
    frames on their way to it are never dispatched. */
module Strands {
  import opened Bytes
  import opened Codec
  import opened Crypto
  import opened Links
  import opened Network
  import opened Delivery
  import C = Coalesce
  import S = Streams
  import M = Mux

  /** The queue only grew, and not at its front. */
  predicate Grown(l: Link, l': Link) {
    && IsCut(l') == IsCut(l)
    && InFlight(l) <= InFlight(l')
    && (IsCut(l) ==> HasNext(l') == HasNext(l))
  }

  lemma SameGrows(l: Link, l': Link, added: seq<Frame>)
    requires Same(l, l') && InFlight(l') == InFlight(l) + added
    ensures Grown(l, l')
  {
    hide InFlight;
  }

  lemma PutGrows(l: Link, f: Frame, e: Env)
    requires Good(l) && !Spent(l) && Valid(f) && Carries(l, |f.payload|)
    ensures Grown(l, SendFrame(l, f, e.draw, e.stopped).link)
  {
    hide Good, SendFrame, InFlight, Grown, Valid;
    if IsShut(l) {
      ClosedRefuses(l, f, e.draw, e.stopped);
      Itself(l);
    } else {
      var pad := SendIsEnqueue(l, f, e.draw, e.stopped);
      Assoc(InFlight(l), [f], pad);
      SameGrows(l, SendFrame(l, f, e.draw, e.stopped).link, [f] + pad);
    }
  }

  lemma Itself(l: Link)
    ensures Grown(l, l)
  {
  }

  /** `a` acts: what is on its way from it stays, in order, and `b` is as it was. */
  lemma SenderActs(s: Net, limit: nat, act: Act)
    requires Inv(s, limit) && Fits(act, limit) && !Spent(s.ab)
    ensures Grown(s.ab, StepA(s, act).ab) && StepA(s, act).b == s.b
  {
    hide Good, SendFrame, InFlight, Grown, M.Sound, Flow, Links.FireTimer, Links.TickCover, Shut, Receive;
    Itself(s.ab);
    match act {
      case OpenStream(e) => PutGrows(s.ab, M.MakeFrame(TYPE_STREAM_OPEN, s.a.nextID, []), e);
      case WriteChunk(id, chunk, e) =>
        if id in s.a.objects && 1 <= |chunk| <= MAX_PAYLOAD {
          PutGrows(s.ab, M.MakeFrame(TYPE_DATA, id, chunk), e);
        }
      case CloseStream(id, e) => PutGrows(s.ab, M.MakeFrame(TYPE_STREAM_CLOSE, id, []), e);
      case Ping(cookie, e) =>
        if |cookie| == 8 {
          PutGrows(s.ab, M.MakeFrame(TYPE_PING, 0, cookie), e);
        }
      case Pad(payload, e) =>
        if 1 <= |payload| <= MAX_PAYLOAD {
          PutGrows(s.ab, M.MakeFrame(TYPE_PADDING, 0, payload), e);
        }
      case FireTimer(t, draw) =>
        var pad := TimerIsPadding(s.ab, t, draw);
        SameGrows(s.ab, Links.FireTimer(s.ab, t, draw), pad);
      case TickCover(e) =>
        var pad := CoverIsPadding(s.ab, e.draw, e.stopped);
        SameGrows(s.ab, Links.TickCover(s.ab, e.draw, e.stopped), pad);
      case CloseTunnel(stopped) =>
        ShutLosesNothing(s.ab, stopped);
        assert InFlight(s.ab) + [] == InFlight(s.ab);
        SameGrows(s.ab, Shut(s.ab, stopped), []);
      case DispatchOne(e) => AnswerGrows(s, limit, e);
      case _ =>
    }
  }

  lemma AnswerGrows(s: Net, limit: nat, e: Env)
    requires Inv(s, limit) && !Spent(s.ab)
    ensures Grown(s.ab, StepA(s, DispatchOne(e)).ab)
  {
    hide Good, SendFrame, InFlight, Grown, M.Sound, Receive, M.Dispatch;
    Itself(s.ab);
    ReceiveIsDequeue(s.ba);
    if s.a.reading && HasNext(s.ba) {
      var f := Receive(s.ba).frame.value;
      assert InFlight(s.ba)[0] == f;
      if M.Reply(f).Some? {
        PutGrows(s.ab, M.Reply(f).value, e);
      }
    }
  }

  /** `a`, whose end is closed and has nothing open to read, acts: it dispatches nothing, and what is on
      its way to it stays. */
  lemma ClosedEndActs(s: Net, limit: nat, act: Act)
    requires Inv(s, limit) && IsCut(s.ba) && !HasNext(s.ba)
    requires act.OpenStream? ==> s.a.log.opens < 0x8000_0000
    ensures StepA(s, act).ba == s.ba
    ensures forall k :: M.Seen(StepA(s, act).a, k) == M.Seen(s.a, k)
  {
    hide Good, SendFrame, InFlight, Flow, Receive, S.DeliverErr, S.AfterRead, M.Sound, M.Seen;
    hide M.OpenStream, M.SendData, M.CloseStream, M.SendPing, M.ReadStream, M.Close, M.StopReading;
    match act {
      case OpenStream(e) => OpenSees(s.a);
      case WriteChunk(id, chunk, e) => StreamSees(s.a);
      case Ping(cookie, e) => StreamSees(s.a);
      case DispatchOne(e) =>
        ReceiveIsDequeue(s.ba);
        StopSees(s.a);
      case CloseStream(id, e) => StreamSees(s.a);
      case ReadStream(id, n) => StreamSees(s.a);
      case CloseConn => StopSees(s.a);
      case CloseTunnel(stopped) => AlreadyCut(s.ba);
      case _ =>
    }
  }

  lemma AlreadyCut(l: Link)
    requires IsCut(l)
    ensures Cut(l) == l
  {
  }

  lemma StopSees(c: M.Conn)
    ensures forall k :: M.Seen(M.Close(c), k) == M.Seen(c, k) && M.Seen(M.StopReading(c), k) == M.Seen(c, k)
  {
  }

  lemma OpenSees(c: M.Conn)
    requires M.Sound(c) && c.log.opens < 0x8000_0000
    ensures forall ok, k :: M.Seen(M.OpenStream(c, ok), k) == M.Seen(c, k)
  {
    hide M.Sound;
    M.OpenSound(c, true);
  }

  lemma StreamSees(c: M.Conn)
    ensures forall id, chunk, ok, k :: id in c.objects ==> M.Seen(M.SendData(c, id, chunk, ok), k) == M.Seen(c, k)
    ensures forall cookie, ok, k :: M.Seen(M.SendPing(c, cookie, ok), k) == M.Seen(c, k)
    ensures forall id, ok, k :: id in c.objects ==> M.Seen(M.CloseStream(c, id, ok), k) == M.Seen(c, k)
    ensures forall id, n, k :: id in c.objects && S.OffsetOK(c.objects[id]) ==>
              M.Seen(M.ReadStream(c, id, n), k) == M.Seen(c, k)
  {
  }

  /** Once `b` has closed its tunnel and dispatched what was open already, nothing on its way to it is
      ever dispatched: over every run it stays where it is, in order. */
  lemma {:induction false} ClosedEndStrands(s: Net, xs: seq<Action>, limit: nat)
    requires Inv(s, limit) && WithinLimits(s, xs) && AllFit(xs, limit)
    requires IsCut(s.ab) && !HasNext(s.ab)
    ensures var t := Run(s, xs);
            && IsCut(t.ab) && !HasNext(t.ab) && InFlight(s.ab) <= InFlight(t.ab)
            && forall k :: M.Seen(t.b, k) == M.Seen(s.b, k)
    decreases |xs|
  {
    hide Inv, StepA, InFlight, HasNext, WithinLimits, AllFit, M.Seen;
    if xs != [] {
      var t := Step(s, xs[0]);
      StepKeepsInv(s, xs, limit);
      OneStrands(s, xs, limit);
      ClosedEndStrands(t, xs[1..], limit);
      assert InFlight(s.ab) <= InFlight(t.ab) <= InFlight(Run(t, xs[1..]).ab);
    }
  }

  lemma OneStrands(s: Net, xs: seq<Action>, limit: nat)
    requires xs != [] && Inv(s, limit) && WithinLimits(s, xs) && AllFit(xs, limit)
    requires IsCut(s.ab) && !HasNext(s.ab)
    ensures var t := Step(s, xs[0]);
            && IsCut(t.ab) && !HasNext(t.ab) && InFlight(s.ab) <= InFlight(t.ab)
            && forall k :: M.Seen(t.b, k) == M.Seen(s.b, k)
  {
    hide Inv, StepA, InFlight, HasNext, M.Seen;
    var x := xs[0];
    if x.byA {
      SenderActs(s, limit, x.act);
    } else {
      FlipInv(s, limit);
      ClosedEndActs(Flip(s), limit, x.act);
    }
  }

  /** A client opens a stream, and the server closes its tunnel before it has read that. */
  function Kick(e: Env, stopped: bool): seq<Action> {
    [Action(true, OpenStream(e)), Action(false, CloseTunnel(stopped))]
  }

  /** Then the STREAM_OPEN stays on its way and the server never learns of the stream, whatever
      follows. */
  lemma KickStrands(first: CipherState, second: CipherState, e: Env, stopped: bool, xs: seq<Action>)
    requires WithinLimits(Deployed(first, second), Kick(e, stopped) + xs) && AllFit(xs, 60133)
    ensures var t := Run(Deployed(first, second), Kick(e, stopped) + xs);
            && InFlight(t.ab) != [] && InFlight(t.ab)[0] == M.MakeFrame(TYPE_STREAM_OPEN, 1, [])
            && M.Seen(t.b, 1) == []
  {
    hide Inv, StepA, InFlight, Deployed, AllFit, WithinLimits, M.Seen, HasNext;
    var s, ys := Deployed(first, second), Kick(e, stopped) + xs;
    DeployedFacts(first, second, ys);
    KickFits(e, stopped, xs);
    StepKeepsInv(s, ys, 60133);
    var s1 := Step(s, ys[0]);
    StepKeepsInv(s1, ys[1..], 60133);
    var s2 := Step(s1, ys[1..][0]);
    assert ys[1..][0] == ys[1] && ys[1..][1..] == xs;
    assert Run(s, ys) == Run(s1, ys[1..]) == Run(s2, xs);
    OpensInFlight(first, second, e);
    CloseCuts(s1, stopped);
    ClosedEndStrands(s2, xs, 60133);
  }

  lemma DeployedFacts(first: CipherState, second: CipherState, xs: seq<Action>)
    requires xs != [] && WithinLimits(Deployed(first, second), xs)
    ensures Inv(Deployed(first, second), 60133) && !first.Exhausted()
  {
    hide Inv;
    StartInv(C.DEPLOYED, C.DEPLOYED, first, second, 60133);
  }

  lemma KickFits(e: Env, stopped: bool, xs: seq<Action>)
    requires AllFit(xs, 60133)
    ensures AllFit(Kick(e, stopped) + xs, 60133)
  {
  }

  ghost predicate Opening(s: Net) {
    && InFlight(s.ab) != [] && InFlight(s.ab)[0] == M.MakeFrame(TYPE_STREAM_OPEN, 1, [])
    && s.ab.Sealed? && s.ab.rx.readBuf == [] && M.Seen(s.b, 1) == []
  }

  lemma OpensInFlight(first: CipherState, second: CipherState, e: Env)
    requires !first.Exhausted()
    ensures Opening(StepA(Deployed(first, second), OpenStream(e)))
  {
    hide Good, InFlight, SendFrame;
    var s, f := Deployed(first, second), M.MakeFrame(TYPE_STREAM_OPEN, 1, []);
    NewGood(C.DEPLOYED, first);
    assert s.ab == New(C.DEPLOYED, first);
    var pad := SendIsEnqueue(s.ab, f, e.draw, e.stopped);
    assert [] + [f] + pad == [f] + pad;
  }

  lemma CloseCuts(s: Net, stopped: bool)
    requires Opening(s) && Inv(s, 60133)
    ensures var t := Flip(StepA(Flip(s), CloseTunnel(stopped)));
            && IsCut(t.ab) && !HasNext(t.ab) && InFlight(t.ab) == InFlight(s.ab) && M.Seen(t.b, 1) == []
  {
    hide Good, InFlight, Shut;
    CutKeeps(s.ab);
  }
}
