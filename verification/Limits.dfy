/** Exactly how large chunks may be, and how many streams a side may open, for the deployed system to
    deliver. */
module Limits {
  import opened Bytes
  import opened Codec
  import opened Crypto
  import opened Links
  import opened Network
  import opened Delivery
  import C = Coalesce
  import S = Streams
  import M = Mux
  import R = LinkRuns

  /** Every run of the deployed system with chunks of at most `n` bytes keeps both directions
      faithful. */
  ghost predicate AlwaysFaithful(n: nat) {
    forall first, second, xs :: WithinLimits(Deployed(first, second), xs) && AllFit(xs, n) ==>
      var s := Run(Deployed(first, second), xs);
      Faithful(s.a, s.b, s.ab) && Faithful(s.b, s.a, s.ba)
  }

  /** That is so exactly up to 60133 bytes. */
  lemma LargestFaithful(n: nat)
    requires n <= MAX_PAYLOAD
    ensures AlwaysFaithful(n) <==> n <= 60133
  {
    hide Run, Faithful, WithinLimits, Inv, Deployed;
    if n <= 60133 {
      forall first, second, xs | WithinLimits(Deployed(first, second), xs) && AllFit(xs, n)
        ensures var s := Run(Deployed(first, second), xs);
                Faithful(s.a, s.b, s.ab) && Faithful(s.b, s.a, s.ba)
      {
        assert AllFit(xs, 60133);
        EveryRunIsFaithful(first, second, xs);
      }
    } else {
      var first, second := CipherState(0, 0), CipherState(1, 0);
      var e := Env(0, false);
      StartRoom();
      LargeChunkLosesStream(first, second, C.Zeros(1283), C.Zeros(n), e);
      var s := Run(Deployed(first, second), Losing(C.Zeros(1283), C.Zeros(n), e));
      assert !Faithful(s.a, s.b, s.ab);
    }
  }

  /** A stream is opened and a small and a large chunk are written on it at once. */
  function Losing(small: bytes, large: bytes, e: Env): seq<Action> {
    [Action(true, OpenStream(e)), Action(true, WriteChunk(1, small, e)), Action(true, WriteChunk(1, large, e))]
  }

  /** Whatever is in the chunks, the large one is refused, and the STREAM_OPEN and the small one, which
      were accepted, are lost with the buffer. */
  lemma LargeChunkLosesStream(first: CipherState, second: CipherState, small: bytes, large: bytes, e: Env)
    requires |small| == 1283 && 60133 < |large| <= MAX_PAYLOAD
    requires Room(Deployed(first, second).ab, 3) && Room(Deployed(first, second).ba, 3)
    ensures var xs := Losing(small, large, e);
            var s := Run(Deployed(first, second), xs);
            && WithinLimits(Deployed(first, second), xs) && AllFit(xs, |large|)
            && s.a.objects.Keys == {1} && M.Sent(s.a, 1) == [S.Opened, S.Data(small)]
            && s.b.objects == map[] && InFlight(s.ab) == []
            && !Faithful(s.a, s.b, s.ab)
  {
    hide Run, Faithful, StepA, Deployed, Good, Near, WithinLimits, Room;
    var s0 := Deployed(first, second);
    var xs := Losing(small, large, e);
    LosingWithin(first, second, xs);
    ThreeSteps(s0, xs);
    OpensOne(first, second, e);
    var s1 := StepA(s0, OpenStream(e));
    SmallWaits(s1, small, e);
    var s2 := StepA(s1, WriteChunk(1, small, e));
    LargeRefused(s2, small, large, e);
    var s3 := StepA(s2, WriteChunk(1, large, e));
    NothingFaithful(s3);
  }

  lemma StartRoom()
    ensures var s := Deployed(CipherState(0, 0), CipherState(1, 0));
            Room(s.ab, 3) && Room(s.ba, 3)
  {
  }

  lemma LosingWithin(first: CipherState, second: CipherState, xs: seq<Action>)
    requires |xs| == 3 && xs[0].byA && xs[0].act.OpenStream? && !xs[1].act.OpenStream? && !xs[2].act.OpenStream?
    requires Room(Deployed(first, second).ab, 3) && Room(Deployed(first, second).ba, 3)
    ensures WithinLimits(Deployed(first, second), xs) && !first.Exhausted()
  {
    assert xs[1..][0] == xs[1] && xs[1..][1..] == xs[2..] && xs[2..][0] == xs[2] && xs[2..][1..] == [];
    assert forall byA :: Opens([], byA) == 0;
    assert forall byA :: Opens(xs[2..], byA) == 0;
    assert forall byA :: Opens(xs[1..], byA) == 0;
  }

  lemma ThreeSteps(s: Net, xs: seq<Action>)
    requires |xs| == 3 && xs[0].byA && xs[1].byA && xs[2].byA
    ensures Run(s, xs) == StepA(StepA(StepA(s, xs[0].act), xs[1].act), xs[2].act)
  {
    hide StepA;
    assert xs[1..][0] == xs[1] && xs[1..][1..] == xs[2..] && xs[2..][0] == xs[2] && xs[2..][1..] == [];
    var s1 := StepA(s, xs[0].act);
    assert Run(s, xs) == Run(s1, xs[1..]);
    assert Run(s1, xs[1..]) == Run(StepA(s1, xs[1].act), xs[2..]);
  }

  /** The state once the STREAM_OPEN waits in the buffer, possibly with more behind it. */
  ghost predicate Waiting(s: Net, sent: seq<S.Event>, size: nat) {
    && s.a.objects.Keys == {1} && M.Sent(s.a, 1) == sent && s.b.objects == map[]
    && s.ab.Sealed? && Good(s.ab) && !IsShut(s.ab) && !Spent(s.ab)
    && s.ab.coal.cfg == C.DEPLOYED && |s.ab.coal.buf| == size && Near(s.ab) == []
  }

  lemma OpensOne(first: CipherState, second: CipherState, e: Env)
    requires !first.Exhausted()
    ensures Waiting(StepA(Deployed(first, second), OpenStream(e)), [S.Opened], HEADER_SIZE)
  {
    hide Good, SendFrame, Near, DecodeAll;
    var s, f := Deployed(first, second), M.MakeFrame(TYPE_STREAM_OPEN, 1, []);
    assert s.ab == New(C.DEPLOYED, first);
    NewGood(C.DEPLOYED, first);
    R.Waits(s.ab, f, e.draw, e.stopped);
    R.SendKeepsGood(s.ab, f, e.draw, e.stopped);
    SameNear(s.ab, SendFrame(s.ab, f, e.draw, e.stopped).link);
  }

  lemma SameNear(l: Link, l': Link)
    requires l.Sealed? && l'.Sealed? && l'.rx == l.rx
    ensures Near(l') == Near(l)
  {
  }

  lemma SmallWaits(s: Net, small: bytes, e: Env)
    requires Waiting(s, [S.Opened], HEADER_SIZE) && |small| == 1283
    ensures Waiting(StepA(s, WriteChunk(1, small, e)), [S.Opened, S.Data(small)], 1299)
  {
    hide Good, SendFrame, Near, DecodeAll;
    var f := M.MakeFrame(TYPE_DATA, 1, small);
    R.Waits(s.ab, f, e.draw, e.stopped);
    R.SendKeepsGood(s.ab, f, e.draw, e.stopped);
    SameNear(s.ab, SendFrame(s.ab, f, e.draw, e.stopped).link);
  }

  lemma LargeRefused(s: Net, small: bytes, large: bytes, e: Env)
    requires Waiting(s, [S.Opened, S.Data(small)], 1299) && 60133 < |large| <= MAX_PAYLOAD
    ensures var t := StepA(s, WriteChunk(1, large, e));
            && t.a.objects.Keys == {1} && M.Sent(t.a, 1) == [S.Opened, S.Data(small)]
            && t.b.objects == map[] && InFlight(t.ab) == []
  {
    hide Good, SendFrame, Near, DecodeAll;
    var f := M.MakeFrame(TYPE_DATA, 1, large);
    RefusedExactlyWhenTooLong(s.ab, f, e.draw, e.stopped);
    SameNear(s.ab, SendFrame(s.ab, f, e.draw, e.stopped).link);
    NothingDecodes();
  }

  lemma NothingFaithful(s: Net)
    requires 1 in s.a.objects && s.b.objects == map[] && InFlight(s.ab) == []
    requires M.Sent(s.a, 1) != []
    ensures !Faithful(s.a, s.b, s.ab)
  {
    assert M.Events(1, InFlight(s.ab)) == [];
  }

  // ---------- How many streams a side may open ----------

  /** Every run of the deployed system in which each side opens at most `n` streams keeps both directions
      faithful, as long as chunks fit and nonces last. */
  ghost predicate FaithfulWith(n: nat) {
    forall first, second, xs ::
      && Room(Deployed(first, second).ab, |xs|) && Room(Deployed(first, second).ba, |xs|) && AllFit(xs, 60133)
      && Opens(xs, true) <= n && Opens(xs, false) <= n ==>
      var s := Run(Deployed(first, second), xs);
      Faithful(s.a, s.b, s.ab) && Faithful(s.b, s.a, s.ba)
  }

  /** That is so exactly up to 2^31 streams. */
  lemma MostOpens(n: nat)
    ensures FaithfulWith(n) <==> n <= 0x8000_0000
  {
    hide Run, Faithful, Inv, Opens, AllFit;
    if n <= 0x8000_0000 {
      forall first, second, xs |
        && Room(Deployed(first, second).ab, |xs|) && Room(Deployed(first, second).ba, |xs|) && AllFit(xs, 60133)
        && Opens(xs, true) <= n && Opens(xs, false) <= n
        ensures var s := Run(Deployed(first, second), xs);
                Faithful(s.a, s.b, s.ab) && Faithful(s.b, s.a, s.ba)
      {
        EveryRunIsFaithful(first, second, xs);
      }
    } else {
      var first, second := CipherState(0, 0), CipherState(1, 0);
      var xs := Opening(0x8000_0001, Env(0, false));
      ReusedIdLosesStream(first, second, 0x8000_0000, Env(0, false));
      OpeningOpens(0x8000_0001, Env(0, false));
      var s := Run(Deployed(first, second), xs);
      assert !Faithful(s.a, s.b, s.ab);
    }
  }

  /** The client opens one stream after the other. */
  function Opening(n: nat, e: Env): seq<Action> {
    seq(n, _ => Action(true, OpenStream(e)))
  }

  lemma {:induction false} OpeningOpens(n: nat, e: Env)
    ensures Opens(Opening(n, e), true) == n && Opens(Opening(n, e), false) == 0 && AllFit(Opening(n, e), 60133)
  {
    if n > 0 {
      OpeningOpens(n - 1, e);
      assert Opening(n, e)[1..] == Opening(n - 1, e);
    }
  }

  /** After 2^31 opens the id of the first stream comes around: the next open takes that stream out of
      the objects of its connection, whose events are then no longer those of one stream. */
  lemma ReusedIdLosesStream(first: CipherState, second: CipherState, n: nat, e: Env)
    requires n == 0x8000_0000 && Room(Deployed(first, second).ab, n + 1)
    ensures var s := Run(Deployed(first, second), Opening(n, e));
            && 1 in s.a.objects && s.a.nextID == 1 && Faithful(s.a, s.b, s.ab)
    ensures var s := Run(Deployed(first, second), Opening(n + 1, e));
            && M.Sent(s.a, 1) == [S.Opened] && |M.Events(1, InFlight(s.ab))| > 1
            && !Faithful(s.a, s.b, s.ab)
  {
    hide Run, Faithful, StepA, Deployed, Inv, InFlight, M.Events;
    var s0 := Deployed(first, second);
    DeployedReady(first, second, n + 1);
    StaysReady(s0, n, 1, e);
    var s := Run(s0, Opening(n, e));
    InvIsFaithful(s, 60133);
    NextIsNth(s, n);
    M.IdsCollideOnlyAfterWrap(true, 0, n);
    assert M.NthID(true, 0) == 1;
    RunSnoc(s0, Opening(n, e), Action(true, OpenStream(e)));
    assert Opening(n + 1, e) == Opening(n, e) + [Action(true, OpenStream(e))];
    OneMore(s, e);
    TwiceOpened(s, StepA(s, OpenStream(e)));
  }

  /** Nothing but opens has happened, `n` of them, and nothing was dispatched. */
  ghost predicate Ready(s: Net, n: nat, room: nat) {
    && Inv(s, 60133) && !IsShut(s.ab) && Room(s.ab, room)
    && s.a.isClient && s.a.log.opens == n && s.b.objects == map[]
    && (n > 0 ==> 1 in s.a.objects)
  }

  lemma DeployedReady(first: CipherState, second: CipherState, room: nat)
    requires Room(Deployed(first, second).ab, room)
    ensures Ready(Deployed(first, second), 0, room)
  {
    hide Inv;
    StartInv(C.DEPLOYED, C.DEPLOYED, first, second, 60133);
  }

  lemma {:induction false} StaysReady(s: Net, n: nat, room: nat, e: Env)
    requires n <= 0x8000_0000 && Ready(s, 0, n + room)
    ensures Ready(Run(s, Opening(n, e)), n, room)
  {
    hide Run, StepA, Ready;
    if n == 0 {
      RunEmpty(s);
      assert Opening(n, e) == [];
    } else {
      StaysReady(s, n - 1, room + 1, e);
      RunSnoc(s, Opening(n - 1, e), Action(true, OpenStream(e)));
      assert Opening(n, e) == Opening(n - 1, e) + [Action(true, OpenStream(e))];
      OneReady(Run(s, Opening(n - 1, e)), n - 1, room, e);
    }
  }

  lemma OneReady(s: Net, n: nat, room: nat, e: Env)
    requires n < 0x8000_0000 && Ready(s, n, room + 1)
    ensures Ready(StepA(s, OpenStream(e)), n + 1, room)
  {
    hide Inv, StepA, InFlight;
    StepAKeepsInv(s, 60133, OpenStream(e));
    OneMore(s, e);
    NextIsNth(s, n);
  }

  lemma NextIsNth(s: Net, n: nat)
    requires Ready(s, n, 1)
    ensures s.a.nextID == M.NthID(true, n)
  {
    hide Good, InFlight, Flow;
  }

  lemma OneMore(s: Net, e: Env)
    requires Inv(s, 60133) && !IsShut(s.ab) && !Spent(s.ab)
    ensures var t := StepA(s, OpenStream(e));
            && t.b == s.b && t.a == M.OpenStream(s.a, true) && !IsShut(t.ab) && Same(s.ab, t.ab)
            && M.Events(s.a.nextID, InFlight(t.ab)) == M.Events(s.a.nextID, InFlight(s.ab)) + [S.Opened]
  {
    var id := s.a.nextID;
    var f := M.MakeFrame(TYPE_STREAM_OPEN, id, []);
    hide Good, InFlight, SendFrame, M.Sound, Flow, M.Events;
    var pad := SendIsEnqueue(s.ab, f, e.draw, e.stopped);
    M.EventsAppend(id, InFlight(s.ab) + [f], pad);
    M.EventsAppend(id, InFlight(s.ab), [f]);
    M.One(f);
    M.Nothing();
    if pad != [] {
      M.One(pad[0]);
      assert pad == [pad[0]];
    }
  }

  lemma TwiceOpened(s: Net, t: Net)
    requires Inv(s, 60133) && s.b.objects == map[] && 1 in s.a.objects && s.a.nextID == 1
    requires t.b == s.b && t.a == M.OpenStream(s.a, true)
    requires M.Events(1, InFlight(t.ab)) == M.Events(1, InFlight(s.ab)) + [S.Opened]
    ensures M.Sent(t.a, 1) == [S.Opened] && |M.Events(1, InFlight(t.ab))| > 1
    ensures !Faithful(t.a, t.b, t.ab)
  {
    hide Good, InFlight, M.Events, S.Sound;
    assert M.StreamOK(s.a, 1);
    assert M.Sent(s.a, 1) == M.Seen(s.b, 1) + M.Events(1, InFlight(s.ab));
  }
}
