/** The client's sessions as the program holds them: a pointer that two loops swap, sessions that are
    closed in place, and the packet writer with its retry loop. Each method is proved to be a step, or
    a run of steps, of the state machine in Rotation. */
module Clients {
  import opened Bytes
  import opened Rotation

  class Client {
    var sessions: seq<Session>
    var activeSession: nat
    var rotated: Option<nat>
    var reconnected: Option<nat>
    var retiring: seq<nat>
    var closing: Option<nat>
    var loaded: Option<nat>
    var last: Option<nat>
    var read: nat
    var tunPktCh: seq<nat>
    ghost var writer: Writer
    ghost var delivered: seq<Delivery>
    ghost var dropped: seq<Lost>
    ghost var refused: seq<Refusal>

    ghost function View(): State
      reads this
    {
      State(sessions, activeSession, rotated, reconnected, retiring, closing, loaded, last,
            read, tunPktCh, writer, delivered, dropped, refused)
    }

    constructor ()
      ensures View() == START
    {
      sessions, activeSession := [FRESH], 0;
      rotated, reconnected, retiring, closing, loaded, last := None, None, [], None, None, None;
      read, tunPktCh, writer, delivered, dropped, refused := 0, [], Idle, [], [], [];
    }

    /** The first call marks the session closed, which ends its multiplexer; later calls return. */
    method CloseSession(i: nat)
      modifies this`sessions
      ensures View() == CloseAt(old(View()), i)
    {
      if i < |sessions| {
        var calls := sessions[i].calls + 1;
        if sessions[i].closed {
          sessions := sessions[i := sessions[i].(calls := calls)];
        } else {
          sessions := sessions[i := Session(true, true, calls)];
        }
      }
    }

    /** A new connection is up, with a new session on it. */
    method Establish() returns (i: nat)
      modifies this`sessions
      ensures i == |old(sessions)| && sessions == old(sessions) + [FRESH]
    {
      i := |sessions|;
      sessions := sessions + [FRESH];
    }

    /** The rotation loop connects, with the old session still active, */
    method RotationConnect()
      modifies this`sessions, this`rotated
      ensures View() == Apply(old(View()), RotationEstablish)
    {
      if rotated.None? {
        var i := Establish();
        rotated := Some(i);
      }
    }

    /** swaps, and leaves the old session to a goroutine of its own */
    method RotationSwaps()
      modifies this`activeSession, this`rotated, this`retiring
      ensures View() == Apply(old(View()), RotationSwap)
    {
      if rotated.Some? {
        var previous := activeSession;
        activeSession, rotated := rotated.value, None;
        retiring := retiring + [previous];
      }
    }

    /** that closes it after the grace period. */
    method GraceEnds(k: nat)
      modifies this`sessions, this`retiring
      ensures View() == Apply(old(View()), GraceOver(k))
    {
      if k < |retiring| {
        var s := retiring[k];
        retiring := retiring[..k] + retiring[k + 1..];
        CloseSession(s);
      }
    }

    method WatchdogConnects()
      modifies this`sessions, this`reconnected
      ensures View() == Apply(old(View()), WatchdogEstablish)
    {
      if reconnected.None? && closing.None? {
        var i := Establish();
        reconnected := Some(i);
      }
    }

    method WatchdogSwaps()
      modifies this`activeSession, this`reconnected, this`closing
      ensures View() == Apply(old(View()), WatchdogSwap)
    {
      if reconnected.Some? && closing.None? {
        var previous := activeSession;
        activeSession, reconnected := reconnected.value, None;
        closing := Some(previous);
      }
    }

    method WatchdogCloses()
      modifies this`sessions, this`closing
      ensures View() == Apply(old(View()), WatchdogClose)
    {
      if closing.Some? {
        var s := closing.value;
        closing := None;
        CloseSession(s);
      }
    }

    method SessionDies(i: nat)
      modifies this`sessions
      ensures View() == Apply(old(View()), MuxDies(i))
    {
      if i < |sessions| {
        sessions := sessions[i := sessions[i].(dead := true)];
      }
    }

    /** Shutdown loads the pointer, */
    method ShutDownLoads()
      modifies this`loaded
      ensures View() == Apply(old(View()), ShutdownLoad)
    {
      if loaded.None? {
        loaded := Some(activeSession);
      }
    }

    /** and closes what it found there, which need not be active any more. */
    method ShutDownCloses()
      modifies this`sessions, this`last
      ensures View() == Apply(old(View()), ShutdownClose)
    {
      if loaded.Some? && last.None? {
        last := loaded;
        CloseSession(loaded.value);
      }
    }

    /** The reader never blocks on the writer: a packet that finds the queue full is dropped. */
    method ReadTun()
      modifies this`read, this`tunPktCh, this`dropped
      ensures View() == Apply(old(View()), ReadPacket)
    {
      if |tunPktCh| < QUEUE {
        tunPktCh := tunPktCh + [read];
      } else {
        dropped := dropped + [Lost(read, |tunPktCh|)];
      }
      read := read + 1;
    }

    /** One step of any other goroutine. */
    method Other(op: Op)
      requires !ByWriter(op)
      modifies this
      ensures View() == Apply(old(View()), op)
    {
      match op
      case RotationEstablish => RotationConnect();
      case RotationSwap => RotationSwaps();
      case GraceOver(k) => GraceEnds(k);
      case WatchdogEstablish => WatchdogConnects();
      case WatchdogSwap => WatchdogSwaps();
      case WatchdogClose => WatchdogCloses();
      case MuxDies(i) => SessionDies(i);
      case ShutdownLoad => ShutDownLoads();
      case ShutdownClose => ShutDownCloses();
      case ReadPacket => ReadTun();
    }

    /** Any number of steps of other goroutines, while the writer waits or is about to act. */
    method Interfere() returns (ghost ops: seq<Op>)
      modifies this
      ensures View() == Run(old(View()), ops) && ByOthers(ops)
      ensures writer == old(writer) && delivered == old(delivered) && refused == old(refused)
      ensures |sessions| >= |old(sessions)|
    {
      hide Apply;
      var n: nat := *;
      ops := [];
      while n > 0
        invariant View() == Run(old(View()), ops) && ByOthers(ops)
        invariant writer == old(writer) && delivered == old(delivered) && refused == old(refused)
        invariant |sessions| >= |old(sessions)|
      {
        var op: Op := *;
        if !ByWriter(op) {
          OthersKeepWriter(View(), op);
          Other(op);
          RunAppend(old(View()), ops, [op]);
          ops := ops + [op];
        }
        n := n - 1;
      }
    }

    method Take() returns (pkt: nat)
      requires writer.Idle? && tunPktCh != []
      modifies this`tunPktCh, this`writer
      ensures View() == Apply(old(View()), TakePacket)
      ensures pkt == old(tunPktCh)[0] && writer == Holding(pkt, 0)
    {
      pkt := tunPktCh[0];
      tunPktCh, writer := tunPktCh[1..], Holding(pkt, 0);
    }

    method Load() returns (cur: nat)
      requires writer.Holding? && activeSession < |sessions|
      modifies this`writer
      ensures View() == Apply(old(View()), LoadActive)
      ensures cur < |sessions| && writer == Writing(old(writer.pkt), old(writer.tries), cur)
    {
      cur := activeSession;
      writer := Writing(writer.pkt, writer.tries, cur);
    }

    /** A closed session refuses every packet; `fails` is whether another one does. */
    method WriteTo(cur: nat, fails: bool) returns (accepted: bool)
      requires writer.Writing? && writer.session == cur < |sessions|
      modifies this`writer, this`delivered, this`refused
      ensures View() == Apply(old(View()), TryWrite(fails))
      ensures accepted ==> writer == Idle && delivered == old(delivered) + [Delivery(old(writer.pkt), cur)]
      ensures accepted ==> refused == old(refused)
      ensures !accepted ==> delivered == old(delivered) && writer == Refused(old(writer.pkt), old(writer.tries))
      ensures !accepted ==> refused == old(refused) + GivenUp(old(writer.pkt), old(writer.tries))
    {
      accepted := !(sessions[cur].closed || fails);
      if accepted {
        delivered := delivered + [Delivery(writer.pkt, cur)];
        writer := Idle;
      } else {
        refused := refused + GivenUp(writer.pkt, writer.tries);
        writer := Refused(writer.pkt, writer.tries);
      }
    }

    /** One attempt to write the packet in hand, to the session that is active just before. */
    method Attempt() returns (to: Option<nat>, ghost ops: seq<Op>)
      requires Owned(View()) && writer.Holding?
      modifies this
      ensures View() == Run(old(View()), ops) && Tries(ops) == 1
      ensures to.Some? ==> writer == Idle && delivered == old(delivered) + [Delivery(old(writer.pkt), to.value)]
      ensures to.Some? ==> refused == old(refused)
      ensures to.None? ==> delivered == old(delivered) && writer == Refused(old(writer.pkt), old(writer.tries))
      ensures to.None? ==> refused == old(refused) + GivenUp(old(writer.pkt), old(writer.tries))
    {
      hide Apply, Refused, GivenUp, Owned;
      ghost var start := View();
      ActiveExists(start);
      ghost var loaded := [LoadActive];
      var cur := Load();
      Steps(start, [], LoadActive);
      assert [] + [LoadActive] == loaded;
      ghost var more := Interfere();
      Meanwhile(start, loaded, more);
      var fails: bool := *;
      var accepted := WriteTo(cur, fails);
      Steps(start, loaded + more, TryWrite(fails));
      ops := loaded + more + [TryWrite(fails)];
      to := if accepted then Some(cur) else None;
    }

    /** One turn of the writer: it takes a packet and tries up to three times to write it. Whatever the
        other goroutines do meanwhile, the turn is a run of the state machine. */
    method SendNext() returns (to: Option<nat>, ghost ops: seq<Op>)
      requires Owned(View()) && PacketsSound(View()) && writer.Idle? && tunPktCh != []
      modifies this
      ensures View() == Run(old(View()), ops) && Owned(View()) && PacketsSound(View()) && writer.Idle?
      ensures delivered == if to.Some? then old(delivered) + [Delivery(old(tunPktCh)[0], to.value)]
                           else old(delivered)
      ensures refused == if to.Some? then old(refused) else old(refused) + [Refusal(old(tunPktCh)[0], MAX_TRIES)]
      ensures 1 <= Tries(ops) <= MAX_TRIES && (to.None? ==> Tries(ops) == MAX_TRIES)
      ensures to.Some? ==> WentToActive(old(View()), ops, Delivery(old(tunPktCh)[0], to.value))
      ensures to.Some? && (forall i :: 0 <= i < |ops| ==> ByWriter(ops[i])) ==> to.value == old(activeSession)
    {
      hide Owned, PacketsSound, Apply, ByOthers;
      ghost var start := View();
      var pkt := Take();
      Steps(start, [], TakePacket);
      ops := [] + [TakePacket];
      to := None;
      var retries := 0;
      while retries < MAX_TRIES
        invariant 0 <= retries <= MAX_TRIES && retries == Tries(ops) && to.None?
        invariant View() == Run(start, ops) && delivered == old(delivered)
        invariant refused == old(refused) + if retries < MAX_TRIES then [] else [Refusal(pkt, MAX_TRIES)]
        invariant writer == if retries < MAX_TRIES then Holding(pkt, retries) else Idle
      {
        RunKeeps(start, ops);
        ghost var more := Interfere();
        Meanwhile(start, ops, more);
        ops := ops + more;
        RunKeeps(start, ops);
        to, more := Attempt();
        Joined(start, ops, more);
        ops := ops + more;
        if to.Some? {
          break;
        }
        retries := retries + 1;
      }
      RunKeeps(start, ops);
      RunTraced(start, ops);
      if to.Some? {
        Delivers(start, ops, Delivery(pkt, to.value));
      }
    }
  }

  lemma Delivers(s: State, ops: seq<Op>, d: Delivery)
    requires Traced(s, ops) && Run(s, ops).delivered == s.delivered + [d]
    ensures WentToActive(s, ops, d)
    ensures (forall i :: 0 <= i < |ops| ==> ByWriter(ops[i])) ==> d.session == s.active
  {
    hide Run, WentToActive;
    assert Run(s, ops).delivered[|s.delivered|] == d;
    if forall i :: 0 <= i < |ops| ==> ByWriter(ops[i]) {
      AloneWentToActive(s, ops, d);
    }
  }

  /** The record of a packet that its last try has failed. */
  function GivenUp(pkt: nat, tries: nat): seq<Refusal> {
    if tries + 1 >= MAX_TRIES then [Refusal(pkt, tries + 1)] else []
  }

  function Refused(pkt: nat, tries: nat): Writer {
    if tries + 1 >= MAX_TRIES then Idle else Holding(pkt, tries + 1)
  }

  lemma ActiveExists(s: State)
    requires Owned(s)
    ensures s.active < |s.sessions|
  {
    assert Holders(s, s.active) > 0;
  }

  /** How often a run tries to write. */
  function Tries(ops: seq<Op>): nat {
    if ops == [] then 0 else Tries(ops[..|ops| - 1]) + if ops[|ops| - 1].TryWrite? then 1 else 0
  }

  lemma Steps(s: State, ops: seq<Op>, op: Op)
    ensures Run(s, ops + [op]) == Apply(Run(s, ops), op)
    ensures Tries(ops + [op]) == Tries(ops) + if op.TryWrite? then 1 else 0
  {
    hide Apply;
    RunAppend(s, ops, [op]);
    assert (ops + [op])[..|ops|] == ops;
  }

  lemma {:induction false} Joined(s: State, xs: seq<Op>, ys: seq<Op>)
    ensures Run(s, xs + ys) == Run(Run(s, xs), ys) && Tries(xs + ys) == Tries(xs) + Tries(ys)
  {
    hide Apply;
    RunAppend(s, xs, ys);
    if ys == [] {
      assert xs + ys == xs;
    } else {
      var init := ys[..|ys| - 1];
      Joined(s, xs, init);
      assert (xs + ys)[..|xs + ys| - 1] == xs + init;
    }
  }

  lemma {:induction false} Meanwhile(s: State, ops: seq<Op>, more: seq<Op>)
    requires ByOthers(more)
    ensures Run(s, ops + more) == Run(Run(s, ops), more) && Tries(ops + more) == Tries(ops)
  {
    Joined(s, ops, more);
    NoTries(more);
  }

  lemma {:induction false} NoTries(ops: seq<Op>)
    requires ByOthers(ops)
    ensures Tries(ops) == 0
  {
    if ops != [] {
      NoTries(ops[..|ops| - 1]);
    }
  }

  lemma OthersKeepWriter(s: State, op: Op)
    requires !ByWriter(op)
    ensures var t := Apply(s, op);
            t.writer == s.writer && t.delivered == s.delivered && t.refused == s.refused && |t.sessions| >= |s.sessions|
  {
  }

  predicate ByOthers(ops: seq<Op>) {
    forall i :: 0 <= i < |ops| ==> !ByWriter(ops[i])
  }
}
