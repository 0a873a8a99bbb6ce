/** With no new sends, dispatching and timers come to rest, and at rest everything is delivered. */
module Quiescence {
  import opened Bytes
  import opened Codec
  import opened Crypto
  import opened Links
  import opened Network
  import opened Delivery
  import C = Coalesce
  import S = Streams
  import M = Mux

  // ---------- A measure that every effective step lowers ----------

  /** A PING in flight will cause a PONG, which may arm a timer, which may add a padding frame. */
  function Weight(q: seq<Frame>): nat {
    if q == [] then 0 else (if q[0].ftype == TYPE_PING then 4 else 1) + Weight(q[1..])
  }

  lemma {:induction false} WeightAppend(q: seq<Frame>, r: seq<Frame>)
    ensures Weight(q + r) == Weight(q) + Weight(r)
  {
    if q == [] {
      assert q + r == r;
    } else {
      WeightAppend(q[1..], r);
      assert (q + r)[1..] == q[1..] + r;
    }
  }

  function LinkMeasure(l: Link): nat {
    Weight(InFlight(l)) + 2 * |Armed(l)|
  }

  function Measure(s: Net): nat {
    LinkMeasure(s.ab) + LinkMeasure(s.ba)
  }

  /** Acts that happen without anybody sending something new. */
  predicate Settling(act: Act) {
    act.DispatchOne? || act.FireTimer?
  }

  /** The act finds a frame to dispatch, or a callback to run. */
  predicate EffectiveA(s: Net, act: Act) {
    || (act.DispatchOne? && s.a.reading && HasNext(s.ba))
    || (act.FireTimer? && act.t in Armed(s.ab))
  }

  predicate Effective(s: Net, x: Action) {
    EffectiveA(if x.byA then s else Flip(s), x.act)
  }

  lemma PaddingWeight(pad: seq<Frame>)
    requires OnlyPadding(pad)
    ensures Weight(pad) == |pad|
  {
  }

  lemma FrameWeight(f: Frame)
    ensures Weight([f]) == if f.ftype == TYPE_PING then 4 else 1
  {
  }

  lemma TimerLowers(s: Net, limit: nat, t: nat, draw: nat)
    requires Inv(s, limit) && !Spent(s.ab)
    ensures var l := Links.FireTimer(s.ab, t, draw);
            if t in Armed(s.ab) then LinkMeasure(l) < LinkMeasure(s.ab) else l == s.ab
  {
    hide Good, InFlight, Flow, M.Sound;
    if t in Armed(s.ab) {
      var pad := TimerIsPadding(s.ab, t, draw);
      hide Links.FireTimer;
      WeightAppend(InFlight(s.ab), pad);
      PaddingWeight(pad);
    }
  }

  lemma DispatchLowers(s: Net, limit: nat, e: Env)
    requires Inv(s, limit) && !Spent(s.ab)
    ensures var s' := StepA(s, DispatchOne(e));
            if EffectiveA(s, DispatchOne(e)) then Measure(s') < Measure(s) else Measure(s') == Measure(s)
  {
    hide Good, InFlight, Flow, M.Sound, Receive, SendFrame, M.Dispatch, M.Close;
    ReceiveIsDequeue(s.ba);
    if EffectiveA(s, DispatchOne(e)) {
      var f, l := Receive(s.ba).frame.value, Receive(s.ba).link;
      WeightAppend([f], InFlight(l));
      FrameWeight(f);
      if M.Reply(f).Some? {
        PongRaises(s, limit, f, InFlight(l), e);
      }
    }
  }

  lemma PongRaises(s: Net, limit: nat, f: Frame, q: seq<Frame>, e: Env)
    requires Inv(s, limit) && !Spent(s.ab) && InFlight(s.ba) == [f] + q && M.Reply(f).Some?
    ensures LinkMeasure(SendFrame(s.ab, M.Reply(f).value, e.draw, e.stopped).link) <= LinkMeasure(s.ab) + 3
    ensures f.ftype == TYPE_PING
  {
    assert ([f] + q)[0] == f;
    var g := M.Reply(f).value;
    hide Good, InFlight, M.Sound, SendFrame;
    if IsShut(s.ab) {
      ClosedRefuses(s.ab, g, e.draw, e.stopped);
    } else {
      var pad := SendIsEnqueue(s.ab, g, e.draw, e.stopped);
      WeightAppend(InFlight(s.ab) + [g], pad);
      WeightAppend(InFlight(s.ab), [g]);
      PaddingWeight(pad);
      FrameWeight(g);
    }
  }

  lemma StepLowers(s: Net, limit: nat, x: Action)
    requires Inv(s, limit) && Settling(x.act)
    requires !Spent(s.ab) && !Spent(s.ba)
    ensures if Effective(s, x) then Measure(Step(s, x)) < Measure(s) else Measure(Step(s, x)) == Measure(s)
  {
    FlipInv(s, limit);
    var t := if x.byA then s else Flip(s);
    hide Inv, LinkMeasure, M.Reply, Receive;
    match x.act {
      case DispatchOne(e) => DispatchLowers(t, limit, e);
      case FireTimer(id, draw) => TimerLowers(t, limit, id, draw);
    }
  }

  /** How many steps of a run find something to do. */
  function EffectiveSteps(s: Net, xs: seq<Action>): nat
    decreases |xs|
  {
    if xs == [] then 0
    else (if Effective(s, xs[0]) then 1 else 0) + EffectiveSteps(Step(s, xs[0]), xs[1..])
  }

  /** Keepalives cannot cascade: without new sends, at most `Measure(s)` frames are dispatched and
      timers run, however the two sides interleave. */
  lemma {:induction false} SettlingEnds(s: Net, limit: nat, xs: seq<Action>)
    requires Inv(s, limit) && WithinLimits(s, xs)
    requires forall i :: 0 <= i < |xs| ==> Settling(xs[i].act)
    ensures EffectiveSteps(s, xs) + Measure(Run(s, xs)) <= Measure(s)
    decreases |xs|
  {
    hide Inv, StepA, Measure, Effective, WithinLimits;
    if xs != [] {
      OneSettles(s, limit, xs);
      SettlingEnds(Step(s, xs[0]), limit, xs[1..]);
    }
  }

  lemma OneSettles(s: Net, limit: nat, xs: seq<Action>)
    requires xs != [] && Inv(s, limit) && WithinLimits(s, xs)
    requires forall i :: 0 <= i < |xs| ==> Settling(xs[i].act)
    ensures var t := Step(s, xs[0]);
            && Inv(t, limit) && WithinLimits(t, xs[1..])
            && if Effective(s, xs[0]) then Measure(t) < Measure(s) else Measure(t) == Measure(s)
  {
    hide Inv, StepA, Measure, Effective;
    assert Settling(xs[0].act);
    StepKeepsInv(s, xs, limit);
    StepLowers(s, limit, xs[0]);
  }

  /** And they do come to rest: from every state some run of at most `Measure(s)` dispatches and
      callbacks leads to one where none finds anything to do. */
  lemma {:induction false} SettlesWithin(s: Net, limit: nat) returns (xs: seq<Action>)
    requires Inv(s, limit) && Room(s.ab, Measure(s)) && Room(s.ba, Measure(s))
    requires s.a.log.opens <= 0x8000_0000 && s.b.log.opens <= 0x8000_0000
    ensures |xs| <= Measure(s) && AtRest(Run(s, xs)) && Inv(Run(s, xs), limit)
    ensures forall i :: 0 <= i < |xs| ==> Settling(xs[i].act)
    decreases Measure(s)
  {
    hide Inv, Measure, StepA, Effective, EffectiveA;
    if AtRest(s) {
      xs := [];
    } else {
      var x: Action :| Settling(x.act) && Effective(s, x);
      OneStep(s, limit, x);
      var rest := SettlesWithin(Step(s, x), limit);
      xs := [x] + rest;
      assert xs[1..] == rest;
    }
  }

  lemma OneStep(s: Net, limit: nat, x: Action)
    requires Inv(s, limit) && Settling(x.act) && Effective(s, x)
    requires Room(s.ab, Measure(s)) && Room(s.ba, Measure(s))
    ensures var t := Step(s, x);
            && Inv(t, limit) && Measure(t) < Measure(s)
            && Room(t.ab, Measure(t)) && Room(t.ba, Measure(t))
            && t.a.log.opens == s.a.log.opens && t.b.log.opens == s.b.log.opens
  {
    hide Inv, StepA, Effective, EffectiveA;
    Positive(s, limit, x);
    StepLowers(s, limit, x);
    FlipInv(s, limit);
    var t := if x.byA then s else Flip(s);
    hide Measure;
    StepAKeepsInv(t, limit, x.act);
    StepAFrame(t, x.act);
    FlipInv(StepA(t, x.act), limit);
  }

  /** A state that can do something has a positive measure. */
  lemma Positive(s: Net, limit: nat, x: Action)
    requires Inv(s, limit) && Settling(x.act) && Effective(s, x)
    ensures Measure(s) > 0
  {
    hide Good, Flow, M.Sound, InFlight, HasNext;
    FlipInv(s, limit);
    var t := if x.byA then s else Flip(s);
    if x.act.FireTimer? {
      assert x.act.t in Armed(t.ab);
    } else {
      ReceiveIsDequeue(t.ba);
      assert InFlight(t.ba)[0] == Receive(t.ba).frame.value;
    }
  }

  // ---------- At rest ----------

  ghost predicate AtRest(s: Net) {
    forall x: Action :: Settling(x.act) ==> !Effective(s, x)
  }

  /** Nothing is in flight from `a` to `b`: every stream `a` has, `b` has too, and every stream of `b`
      that has not ended has got every message sent on it. */
  ghost predicate Arrived(a: M.Conn, b: M.Conn, ab: Link) {
    && InFlight(ab) == []
    && a.objects.Keys <= b.objects.Keys
    && (forall k :: k in b.objects && b.objects[k].log.cause.None? ==> b.objects[k].log.got == Messages(a, k))
  }

  /** Everything sent from `a` to `b` on stream `k` was enqueued there. */
  ghost predicate Delivered(s: Net, k: u32) {
    && (k in s.a.objects ==> k in s.b.objects)
    && (k in s.b.objects ==> s.b.objects[k].log.cause.None? && s.b.objects[k].log.got == Messages(s.a, k))
  }

  /** At rest everything has arrived at an end that has not closed its own tunnel; and if neither has,
      both have the same streams, every stream that goes on has got all its messages, and every ping
      has been answered. */
  lemma AtRestAllDelivered(s: Net, limit: nat)
    requires Inv(s, limit) && AtRest(s)
    ensures forall k, toB :: Ongoing(Oriented(s, toB), k) ==> Delivered(Oriented(s, toB), k)
    ensures !IsShut(s.ba) ==> Arrived(s.a, s.b, s.ab)
    ensures !IsShut(s.ab) ==> Arrived(s.b, s.a, s.ba)
    ensures !IsShut(s.ab) && !IsShut(s.ba) ==>
              && s.a.objects.Keys == s.b.objects.Keys
              && s.a.log.pingsSent == s.a.log.pongsSeen && s.b.log.pingsSent == s.b.log.pongsSeen
  {
    FlipInv(s, limit);
    if !IsShut(s.ba) {
      NothingInFlight(s, limit, true);
    }
    if !IsShut(s.ab) {
      NothingInFlight(Flip(s), limit, false);
    }
    hide Inv, InFlight;
    if !IsShut(s.ba) {
      EmptyDelivers(s, limit);
    }
    if !IsShut(s.ab) {
      EmptyDelivers(Flip(s), limit);
    }
    if !IsShut(s.ab) && !IsShut(s.ba) {
      PingsReturnOnce(s, limit);
      PingsReturnOnce(Flip(s), limit);
    }
  }

  /** From every state a run of the deployed system reaches, a bounded number of dispatches and
      callbacks leads to rest, and then every stream that no act of the run ended has been delivered
      in full, both ways. */
  lemma {:induction false} EverythingArrives(first: CipherState, second: CipherState, xs: seq<Action>)
    returns (ys: seq<Action>)
    requires WithinLimits(Deployed(first, second), xs) && AllFit(xs, 60133)
    requires var s := Run(Deployed(first, second), xs); Room(s.ab, Measure(s)) && Room(s.ba, Measure(s))
    ensures |ys| <= Measure(Run(Deployed(first, second), xs))
    ensures forall i :: 0 <= i < |ys| ==> Settling(ys[i].act)
    ensures var t := Run(Deployed(first, second), xs + ys);
            && AtRest(t)
            && forall k, toB :: NoneEnds(xs, k, toB) ==> Delivered(Oriented(t, toB), k)
  {
    hide Inv, Run, Measure, AtRest, NoneEnds, Delivered, WithinLimits, AllFit, Ongoing;
    StartInv(C.DEPLOYED, C.DEPLOYED, first, second, 60133);
    ys := ArrivesFrom(Deployed(first, second), xs, 60133);
  }

  /** Over a bare transport this needs no room for nonces, and takes payloads of every size. */
  lemma {:induction false} EverythingArrivesBare(xs: seq<Action>) returns (ys: seq<Action>)
    requires WithinLimits(BARE_START, xs)
    ensures |ys| <= Measure(Run(BARE_START, xs))
    ensures forall i :: 0 <= i < |ys| ==> Settling(ys[i].act)
    ensures var t := Run(BARE_START, xs + ys);
            && AtRest(t)
            && forall k, toB :: NoneEnds(xs, k, toB) ==> Delivered(Oriented(t, toB), k)
  {
    hide Inv, Run, Measure, AtRest, NoneEnds, Delivered, WithinLimits, Ongoing;
    BareStartInv(MAX_PAYLOAD);
    StaysBare(BARE_START, xs);
    ys := ArrivesFrom(BARE_START, xs, MAX_PAYLOAD);
  }

  lemma {:induction false} StaysBare(s: Net, xs: seq<Action>)
    requires s.ab.Bare? && s.ba.Bare?
    ensures Run(s, xs).ab.Bare? && Run(s, xs).ba.Bare?
    decreases |xs|
  {
    hide StepA;
    if xs != [] {
      ActsBare(if xs[0].byA then s else Flip(s), xs[0].act);
      StaysBare(Step(s, xs[0]), xs[1..]);
    }
  }

  lemma ActsBare(s: Net, act: Act)
    requires s.ab.Bare? && s.ba.Bare?
    ensures StepA(s, act).ab.Bare? && StepA(s, act).ba.Bare?
  {
    hide SendFrame, Receive, M.Dispatch, M.OpenStream, M.Close, M.StopReading, M.CloseStream, M.SendData, M.ReadStream;
    BareActs(s.ab);
    BareActs(s.ba);
  }

  lemma BareActs(l: Link)
    requires l.Bare?
    ensures Receive(l).link.Bare? && forall f, draw, stopped :: SendFrame(l, f, draw, stopped).link.Bare?
  {
  }

  lemma {:induction false} ArrivesFrom(s: Net, xs: seq<Action>, limit: nat) returns (ys: seq<Action>)
    requires Inv(s, limit) && WithinLimits(s, xs) && AllFit(xs, limit)
    requires !IsShut(s.ab) && !IsShut(s.ba) && s.a == M.New(s.a.isClient) && s.b == M.New(s.b.isClient)
    requires var t := Run(s, xs); Room(t.ab, Measure(t)) && Room(t.ba, Measure(t))
    ensures |ys| <= Measure(Run(s, xs)) && forall i :: 0 <= i < |ys| ==> Settling(ys[i].act)
    ensures var t := Run(s, xs + ys);
            && AtRest(t)
            && forall k, toB :: NoneEnds(xs, k, toB) ==> Delivered(Oriented(t, toB), k)
  {
    hide Inv, Run, Measure, AtRest, NoneEnds, Delivered, AllFit, Ongoing;
    var t := Run(s, xs);
    RunKeepsInv(s, xs, limit);
    OpensBounded(s, xs, limit);
    ys := SettlesWithin(t, limit);
    RunThen(s, xs, ys);
    var u := Run(t, ys);
    AtRestAllDelivered(u, limit);
    SettlingFits(t, ys, limit);
    forall k, toB | NoneEnds(xs, k, toB)
      ensures Delivered(Oriented(u, toB), k)
    {
      StartOngoing(s, k);
      RunKeepsOngoing(s, xs, limit, k, toB);
      SettlingEndsNone(ys, k, toB);
      RunKeepsOngoing(t, ys, limit, k, toB);
    }
  }

  lemma {:induction false} OpensBounded(s: Net, xs: seq<Action>, limit: nat)
    requires Inv(s, limit) && WithinLimits(s, xs) && AllFit(xs, limit)
    ensures Run(s, xs).a.log.opens <= 0x8000_0000 && Run(s, xs).b.log.opens <= 0x8000_0000
    decreases |xs|
  {
    if xs != [] {
      hide Inv, StepA, AllFit;
      StepKeepsInv(s, xs, limit);
      OpensBounded(Step(s, xs[0]), xs[1..], limit);
    }
  }

  lemma {:induction false} SettlingFits(s: Net, ys: seq<Action>, limit: nat)
    requires forall i :: 0 <= i < |ys| ==> Settling(ys[i].act)
    requires Room(s.ab, |ys|) && Room(s.ba, |ys|)
    requires s.a.log.opens <= 0x8000_0000 && s.b.log.opens <= 0x8000_0000
    ensures WithinLimits(s, ys) && AllFit(ys, limit)
  {
    NoOpens(ys, true);
    NoOpens(ys, false);
  }

  lemma {:induction false} NoOpens(ys: seq<Action>, byA: bool)
    requires forall i :: 0 <= i < |ys| ==> Settling(ys[i].act)
    ensures Opens(ys, byA) == 0
  {
    if ys != [] {
      assert Settling(ys[0].act);
      NoOpens(ys[1..], byA);
    }
  }

  lemma SettlingEndsNone(ys: seq<Action>, k: u32, toB: bool)
    requires forall i :: 0 <= i < |ys| ==> Settling(ys[i].act)
    ensures NoneEnds(ys, k, toB)
  {
  }

  // ---------- And then it can be read ----------

  /** One end reads stream `k` with buffers of the sizes `ns`. */
  function Reading(byA: bool, k: u32, ns: seq<nat>): seq<Action> {
    seq(|ns|, i requires 0 <= i < |ns| => Action(byA, ReadStream(k, ns[i])))
  }

  function EndAt(s: Net, byA: bool): M.Conn {
    if byA then s.a else s.b
  }

  lemma {:induction false} ReadingReads(s: Net, byA: bool, k: u32, ns: seq<nat>)
    requires k in EndAt(s, byA).objects && S.OffsetOK(EndAt(s, byA).objects[k])
    ensures var t := Run(s, Reading(byA, k, ns));
            && EndAt(t, !byA) == EndAt(s, !byA)
            && k in EndAt(t, byA).objects
            && EndAt(t, byA).objects[k] == S.ReadAll(EndAt(s, byA).objects[k], ns)
    decreases |ns|
  {
    hide S.AfterRead;
    if ns != [] {
      var o := EndAt(s, byA).objects[k];
      S.AfterReadOK(o, ns[0]);
      assert Reading(byA, k, ns)[1..] == Reading(byA, k, ns[1..]);
      ReadingReads(Step(s, Action(byA, ReadStream(k, ns[0]))), byA, k, ns[1..]);
    }
  }

  /** A stream that has been delivered in full is read in full by as many reads as bytes and messages are
      queued, whatever the sizes of their buffers: the bytes read are the bytes sent, in order. */
  lemma ReadersFinish(s: Net, limit: nat, k: u32, toB: bool, ns: seq<nat>)
    requires Inv(s, limit) && Delivered(Oriented(s, toB), k) && k in Oriented(s, toB).b.objects
    requires |ns| >= S.Backlog(Oriented(s, toB).b.objects[k]) && forall i :: 0 <= i < |ns| ==> ns[i] > 0
    ensures var t := Oriented(Run(s, Reading(!toB, k, ns)), toB);
            && k in t.b.objects && t.b.objects[k].readMsgs == []
            && t.b.objects[k].log.taken == Concat(Messages(t.a, k)) == Concat(Messages(Oriented(s, toB).a, k))
  {
    hide Run, Flow, Good, InFlight, Messages, S.Sound, S.AfterRead, Concat;
    var o := Oriented(s, toB).b.objects[k];
    assert S.Sound(o) by {
      assert M.StreamOK(Oriented(s, toB).b, k);
    }
    assert S.OffsetOK(o) by { SoundOffset(o); }
    S.ReadersGetEverything(o, ns);
    ReadingReads(s, !toB, k, ns);
  }

  lemma SoundOffset(o: S.Stream)
    requires S.Sound(o)
    ensures S.OffsetOK(o)
  {
  }

  lemma NothingInFlight(s: Net, limit: nat, aIsA: bool)
    requires Inv(s, limit) && !IsShut(s.ba)
    requires AtRest(if aIsA then s else Flip(s))
    ensures InFlight(s.ab) == []
  {
    hide Flow, M.Sound, Good, HasNext;
    var whole := if aIsA then s else Flip(s);
    if t :| t in Armed(s.ab) {
      assert Effective(whole, Action(aIsA, FireTimer(t, 0)));
    }
    assert !Effective(whole, Action(!aIsA, DispatchOne(Env(0, false))));
    if s.b.reading {
      Emptied(s.ab);
    }
  }

  lemma Emptied(l: Link)
    requires Good(l) && !IsCut(l) && !HasNext(l) && Armed(l) == {}
    ensures InFlight(l) == []
  {
    assert l.Sealed? ==> C.Sound(l.coal) && l.coal.buf == [];
    NothingDecodes();
  }

  lemma EmptyDelivers(s: Net, limit: nat)
    requires Inv(s, limit) && InFlight(s.ab) == []
    ensures Arrived(s.a, s.b, s.ab)
  {
    InvIsFaithful(s, limit);
    hide Inv, InFlight, Messages;
    assert forall k :: M.Events(k, []) == [];
  }
}
