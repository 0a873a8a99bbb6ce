/** The client's sessions: the rotation loop and the watchdog both replace the active session, and a
    writer sends the device's packets on whichever session is active. */
module Rotation {
  import opened Bytes

  const QUEUE := 512
  const MAX_TRIES := 3

  /** `closed`: the session's close has run. `dead`: its multiplexer is done, by itself or because the
      session was closed. `calls` counts the calls of close, with or without effect. */
  datatype Session = Session(closed: bool, dead: bool, calls: nat)

  /** The packet writer: idle, holding a packet after some failed tries, or with the session loaded
      that it is about to write to. Packets are named by their position in the packets read. */
  datatype Writer = Idle | Holding(pkt: nat, tries: nat) | Writing(pkt: nat, tries: nat, session: nat)

  /** A packet that a session accepted; one dropped by the reader, with how many were waiting; and one
      given up by the writer, after how many tries. */
  datatype Delivery = Delivery(pkt: nat, session: nat)
  datatype Lost = Lost(pkt: nat, waiting: nat)
  datatype Refusal = Refusal(pkt: nat, tries: nat)

  /** `rotated` and `reconnected` are sessions the two loops have established and not swapped in yet;
      `retiring` wait out their grace period, each with its own goroutine; `closing` is the session
      the watchdog took out and is about to close; `loaded` is the session that shutdown read as the
      active one, and `last` the one it closed, if it came that far. */
  datatype State = State(
    sessions: seq<Session>,
    active: nat,
    rotated: Option<nat>,
    reconnected: Option<nat>,
    retiring: seq<nat>,
    closing: Option<nat>,
    loaded: Option<nat>,
    last: Option<nat>,
    read: nat,
    queue: seq<nat>,
    writer: Writer,
    delivered: seq<Delivery>,
    dropped: seq<Lost>,
    refused: seq<Refusal>)

  const FRESH := Session(false, false, 0)

  /** After the initial connection. */
  const START := State([FRESH], 0, None, None, [], None, None, None, 0, [], Idle, [], [], [])

  /** tunnelSession.close: only the first call has an effect. */
  function Close(s: Session): Session {
    if s.closed then s.(calls := s.calls + 1) else Session(true, true, s.calls + 1)
  }

  function CloseAt(s: State, i: nat): State {
    if i < |s.sessions| then s.(sessions := s.sessions[i := Close(s.sessions[i])]) else s
  }

  datatype Op =
    | RotationEstablish      // the rotation loop has a new connection
    | RotationSwap           // and makes it active; the old one retires
    | GraceOver(k: nat)      // the k-th retiring session is closed
    | WatchdogEstablish      // the watchdog saw a dead active session and has a new connection
    | WatchdogSwap           // and makes it active
    | WatchdogClose          // and closes the one it replaced
    | MuxDies(session: nat)
    | ShutdownLoad           // shutdown reads the active session
    | ShutdownClose          // and closes it; a swap may come in between
    | ReadPacket             // the device delivers a packet; a full queue drops it
    | TakePacket
    | LoadActive
    | TryWrite(fails: bool)  // a closed session always refuses; others may fail

  function Apply(s: State, op: Op): State {
    match op
    case RotationEstablish =>
      if s.rotated.Some? then s
      else s.(rotated := Some(|s.sessions|), sessions := s.sessions + [FRESH])
    case RotationSwap =>
      if s.rotated.None? then s
      else s.(active := s.rotated.value, rotated := None, retiring := s.retiring + [s.active])
    case GraceOver(k) =>
      if k >= |s.retiring| then s
      else CloseAt(s.(retiring := s.retiring[..k] + s.retiring[k + 1..]), s.retiring[k])
    case WatchdogEstablish =>
      if s.reconnected.Some? || s.closing.Some? then s
      else s.(reconnected := Some(|s.sessions|), sessions := s.sessions + [FRESH])
    case WatchdogSwap =>
      if s.reconnected.None? || s.closing.Some? then s
      else s.(active := s.reconnected.value, reconnected := None, closing := Some(s.active))
    case WatchdogClose =>
      if s.closing.None? then s else CloseAt(s.(closing := None), s.closing.value)
    case MuxDies(i) =>
      if i < |s.sessions| then s.(sessions := s.sessions[i := s.sessions[i].(dead := true)]) else s
    case ShutdownLoad =>
      if s.loaded.Some? then s else s.(loaded := Some(s.active))
    case ShutdownClose =>
      if s.loaded.None? || s.last.Some? then s else CloseAt(s.(last := s.loaded), s.loaded.value)
    case ReadPacket =>
      if |s.queue| < QUEUE then s.(read := s.read + 1, queue := s.queue + [s.read])
      else s.(read := s.read + 1, dropped := s.dropped + [Lost(s.read, |s.queue|)])
    case TakePacket =>
      if s.writer.Idle? && s.queue != [] then s.(queue := s.queue[1..], writer := Holding(s.queue[0], 0)) else s
    case LoadActive =>
      if s.writer.Holding? then s.(writer := Writing(s.writer.pkt, s.writer.tries, s.active)) else s
    case TryWrite(fails) =>
      if !s.writer.Writing? || s.writer.session >= |s.sessions| then s
      else if s.sessions[s.writer.session].closed || fails then
        if s.writer.tries + 1 >= MAX_TRIES then
          s.(writer := Idle, refused := s.refused + [Refusal(s.writer.pkt, s.writer.tries + 1)])
        else s.(writer := Holding(s.writer.pkt, s.writer.tries + 1))
      else s.(writer := Idle, delivered := s.delivered + [Delivery(s.writer.pkt, s.writer.session)])
  }

  // ---------- Who is responsible for a session ----------

  function Is(o: Option<nat>, i: nat): nat {
    if o == Some(i) then 1 else 0
  }

  /** How many are responsible for session `i`: it may be the active one, one that a loop holds, one
      in its grace period, or the one the watchdog is about to close. */
  function Holders(s: State, i: nat): nat {
    (if s.active == i then 1 else 0) + Is(s.rotated, i) + Is(s.reconnected, i) + multiset(s.retiring)[i]
    + Is(s.closing, i)
  }

  /** Every session that is not closed has one holder; no session has two; a held session is closed
      only by shutdown; close is called once for each session given up, and once by shutdown; a
      closed session is dead. */
  ghost predicate Owned(s: State) {
    && (forall i: nat :: Holders(s, i) > 0 ==> i < |s.sessions| && Holders(s, i) == 1)
    && (forall i :: 0 <= i < |s.sessions| ==> SessionOK(s.sessions[i], Holders(s, i), s.last == Some(i)))
    && (s.loaded.Some? ==> s.loaded.value < |s.sessions|)
    && (s.last.Some? ==> s.last == s.loaded && s.last.value < |s.sessions| && s.sessions[s.last.value].closed)
  }

  predicate SessionOK(x: Session, holders: nat, byShutdown: bool) {
    && (!x.closed ==> holders == 1)
    && (x.closed && holders > 0 ==> byShutdown)
    && x.calls == (if byShutdown then 1 else 0) + (if x.closed && holders == 0 then 1 else 0)
    && (x.closed ==> x.dead)
  }

  // ---------- Packets ----------

  /** Packets wait in the order they were read; what sessions accepted, the packet in hand and the
      queue are one increasing run of positions, so no packet is accepted twice or out of order. */
  predicate PacketsSound(s: State) {
    && Ascending(Positions(s.delivered) + InHand(s.writer) + s.queue)
    && (forall i :: 0 <= i < |s.queue| ==> s.queue[i] < s.read)
    && (forall i :: 0 <= i < |s.delivered| ==> s.delivered[i].pkt < s.read)
    && (forall p :: p in InHand(s.writer) ==> p < s.read)
    && |s.queue| <= QUEUE
    && (!s.writer.Idle? ==> s.writer.tries < MAX_TRIES)
  }

  function Positions(ds: seq<Delivery>): (ps: seq<nat>)
    ensures |ps| == |ds|
    ensures forall i :: 0 <= i < |ds| ==> ps[i] == ds[i].pkt
  {
    seq(|ds|, i requires 0 <= i < |ds| => ds[i].pkt)
  }

  function LostPackets(ls: seq<Lost>): seq<nat> {
    seq(|ls|, i requires 0 <= i < |ls| => ls[i].pkt)
  }

  function RefusedPackets(rs: seq<Refusal>): seq<nat> {
    seq(|rs|, i requires 0 <= i < |rs| => rs[i].pkt)
  }

  function InHand(w: Writer): seq<nat> {
    if w.Idle? then [] else [w.pkt]
  }

  /** In how many places packet `p` is. */
  function Places(s: State, p: nat): nat {
    Times(Positions(s.delivered), p) + Times(InHand(s.writer), p) + Times(s.queue, p)
    + Times(LostPackets(s.dropped), p) + Times(RefusedPackets(s.refused), p)
  }

  function Times(ns: seq<nat>, p: nat): nat {
    multiset(ns)[p]
  }

  lemma TimesAppend(ns: seq<nat>, x: nat)
    ensures forall p :: Times(ns + [x], p) == Times(ns, p) + if p == x then 1 else 0
    ensures forall p :: Times([x], p) == if p == x then 1 else 0
    ensures forall p :: Times([], p) == 0
  {
  }

  /** Every packet read is in exactly one place: accepted by a session, in hand, waiting, dropped when
      512 were waiting, or given up after three tries. */
  ghost predicate Accounted(s: State) {
    && (forall p: nat :: Places(s, p) == if p < s.read then 1 else 0)
    && (forall d :: d in s.dropped ==> d.waiting == QUEUE)
    && (forall r :: r in s.refused ==> r.tries == MAX_TRIES)
    && |s.queue| <= QUEUE && (!s.writer.Idle? ==> s.writer.tries < MAX_TRIES)
  }

  lemma TimesHead(ns: seq<nat>)
    requires ns != []
    ensures forall p :: Times(ns, p) == Times(ns[1..], p) + if p == ns[0] then 1 else 0
  {
    assert ns == [ns[0]] + ns[1..];
  }

  predicate Ascending(ns: seq<nat>) {
    forall i, j :: 0 <= i < j < |ns| ==> ns[i] < ns[j]
  }

  // ---------- Every step ----------

  lemma StartSound()
    ensures Owned(START) && PacketsSound(START) && Accounted(START)
  {
  }

  /** Closing a session and giving it up. */
  lemma Released(s: State, t: State, x: nat)
    requires Owned(s) && Holders(s, x) > 0 && t.last == s.last && t.loaded == s.loaded
    requires forall i: nat :: Holders(t, i) == Holders(s, i) - if i == x then 1 else 0
    requires x < |s.sessions| && t.sessions == s.sessions[x := Close(s.sessions[x])]
    ensures Owned(t)
  {
  }

  lemma HeldInside(s: State, i: nat)
    requires Owned(s) && Holders(s, i) > 0
    ensures i < |s.sessions| && Holders(s, i) == 1
  {
  }

  /** Establishing adds one session, with one holder. */
  lemma Established(s: State, t: State)
    requires Owned(s) && t.sessions == s.sessions + [FRESH] && t.last == s.last && t.loaded == s.loaded
    requires forall i: nat :: Holders(t, i) == Holders(s, i) + if i == |s.sessions| then 1 else 0
    ensures Owned(t)
  {
  }

  /** Nothing but the holders' names, or whether a session is dead, changes. */
  lemma Moved(s: State, t: State)
    requires Owned(s) && t.last == s.last && t.loaded == s.loaded && |t.sessions| == |s.sessions|
    requires forall i: nat :: Holders(t, i) == Holders(s, i)
    requires forall i :: 0 <= i < |s.sessions| ==>
               t.sessions[i] == s.sessions[i] || t.sessions[i] == s.sessions[i].(dead := true)
    ensures Owned(t)
  {
  }

  lemma GraceHeld(retiring: seq<nat>, k: nat)
    requires k < |retiring|
    ensures multiset(retiring[..k] + retiring[k + 1..]) == multiset(retiring) - multiset{retiring[k]}
    ensures retiring[k] in multiset(retiring)
  {
    assert retiring == retiring[..k] + [retiring[k]] + retiring[k + 1..];
  }

  lemma EstablishOwned(s: State)
    requires Owned(s)
    ensures Owned(Apply(s, RotationEstablish)) && Owned(Apply(s, WatchdogEstablish))
  {
    if s.rotated.None? {
      Established(s, Apply(s, RotationEstablish));
    }
    if s.reconnected.None? && s.closing.None? {
      Established(s, Apply(s, WatchdogEstablish));
    }
    hide Holders;
  }

  lemma SwapOwned(s: State)
    requires Owned(s)
    ensures Owned(Apply(s, RotationSwap)) && Owned(Apply(s, WatchdogSwap))
  {
    hide Holders, SessionOK;
    SwapHolders(s);
    if s.rotated.Some? {
      Moved(s, Apply(s, RotationSwap));
    }
    if s.reconnected.Some? && s.closing.None? {
      Moved(s, Apply(s, WatchdogSwap));
    }
  }

  lemma SwapHolders(s: State)
    ensures forall i: nat :: Holders(Apply(s, RotationSwap), i) == Holders(s, i)
    ensures forall i: nat :: Holders(Apply(s, WatchdogSwap), i) == Holders(s, i)
  {
  }

  lemma GraceOwned(s: State, k: nat)
    requires Owned(s)
    ensures Owned(Apply(s, GraceOver(k)))
  {
    if k < |s.retiring| {
      GraceHeld(s.retiring, k);
      HeldInside(s, s.retiring[k]);
      Released(s, Apply(s, GraceOver(k)), s.retiring[k]);
    }
    hide Holders;
  }

  lemma WatchdogCloseOwned(s: State)
    requires Owned(s)
    ensures Owned(Apply(s, WatchdogClose))
  {
    if s.closing.Some? {
      HeldInside(s, s.closing.value);
      Released(s, Apply(s, WatchdogClose), s.closing.value);
    }
    hide Holders;
  }

  lemma ShutdownOwned(s: State)
    requires Owned(s)
    ensures Owned(Apply(s, ShutdownLoad)) && Owned(Apply(s, ShutdownClose))
  {
    hide Holders;
    ShutdownHolders(s);
    ActiveHeld(s);
  }

  lemma ActiveHeld(s: State)
    requires Owned(s)
    ensures s.active < |s.sessions|
  {
    HeldInside(s, s.active);
  }

  lemma ShutdownHolders(s: State)
    ensures forall i: nat :: Holders(Apply(s, ShutdownLoad), i) == Holders(s, i)
    ensures forall i: nat :: Holders(Apply(s, ShutdownClose), i) == Holders(s, i)
  {
  }

  lemma MuxDiesOwned(s: State, i: nat)
    requires Owned(s)
    ensures Owned(Apply(s, MuxDies(i)))
    ensures i < |s.sessions| ==> Apply(s, MuxDies(i)).sessions[i].dead
  {
    Moved(s, Apply(s, MuxDies(i)));
    hide Holders;
  }

  predicate MovesPackets(op: Op) {
    op.ReadPacket? || op.TakePacket? || op.LoadActive? || op.TryWrite?
  }

  lemma PacketStepOwned(s: State, op: Op)
    requires Owned(s) && MovesPackets(op)
    ensures Owned(Apply(s, op))
  {
    hide Holders, SessionOK, Owned, Apply;
    PacketsOnly(s, op);
    Moved(s, Apply(s, op));
  }

  lemma PacketsOnly(s: State, op: Op)
    requires MovesPackets(op)
    ensures var t := Apply(s, op);
            t.sessions == s.sessions && t.last == s.last && t.loaded == s.loaded
            && forall i: nat :: Holders(t, i) == Holders(s, i)
  {
  }

  lemma StepOwned(s: State, op: Op)
    requires Owned(s)
    ensures Owned(Apply(s, op))
  {
    hide Owned, Apply;
    match op {
      case RotationEstablish => EstablishOwned(s);
      case WatchdogEstablish => EstablishOwned(s);
      case RotationSwap => SwapOwned(s);
      case WatchdogSwap => SwapOwned(s);
      case GraceOver(k) => GraceOwned(s, k);
      case WatchdogClose => WatchdogCloseOwned(s);
      case ShutdownLoad => ShutdownOwned(s);
      case ShutdownClose => ShutdownOwned(s);
      case MuxDies(i) => MuxDiesOwned(s, i);
      case _ => PacketStepOwned(s, op);
    }
  }

  lemma StepPackets(s: State, op: Op)
    requires PacketsSound(s)
    ensures PacketsSound(Apply(s, op))
  {
    match op
    case TryWrite(fails) => TryPackets(s, fails);
    case TakePacket => TakePackets(s);
    case ReadPacket => ReadPackets(s);
    case _ =>
  }

  lemma TryPackets(s: State, fails: bool)
    requires PacketsSound(s)
    ensures PacketsSound(Apply(s, TryWrite(fails)))
  {
    hide Ascending;
    var t := Apply(s, TryWrite(fails));
    if s.writer.Writing? {
      WithoutMiddle(Positions(s.delivered), InHand(s.writer), s.queue);
      assert s.writer.pkt in InHand(s.writer);
      if t.delivered != s.delivered {
        assert Positions(t.delivered) == Positions(s.delivered) + InHand(s.writer);
        assert Positions(t.delivered) + [] == Positions(t.delivered);
      } else if t.writer.Idle? {
        assert Positions(s.delivered) + [] == Positions(s.delivered);
      }
    }
  }

  lemma TakePackets(s: State)
    requires PacketsSound(s)
    ensures PacketsSound(Apply(s, TakePacket))
  {
    hide Ascending;
    var t := Apply(s, TakePacket);
    if s.writer.Idle? && s.queue != [] {
      assert Positions(t.delivered) + InHand(t.writer) + t.queue == Positions(s.delivered) + InHand(s.writer) + s.queue;
    }
  }

  lemma ReadPackets(s: State)
    requires PacketsSound(s)
    ensures PacketsSound(Apply(s, ReadPacket))
  {
    hide Ascending;
    AppendLatest(Positions(s.delivered) + InHand(s.writer), s.queue, s.read);
  }

  lemma StepAccounts(s: State, op: Op)
    requires Accounted(s)
    ensures Accounted(Apply(s, op))
  {
    match op
    case TryWrite(fails) => TryAccounts(s, fails);
    case TakePacket => TakeAccounts(s);
    case ReadPacket => ReadAccounts(s);
    case _ => OthersAccount(s, op);
  }

  lemma SamePlaces(s: State, t: State)
    requires Accounted(s) && t.read == s.read && t.queue == s.queue && t.delivered == s.delivered
    requires t.dropped == s.dropped && t.refused == s.refused && InHand(t.writer) == InHand(s.writer)
    requires !t.writer.Idle? ==> t.writer.tries < MAX_TRIES
    ensures Accounted(t)
  {
    forall p: nat
      ensures Places(t, p) == Places(s, p)
    {
    }
  }

  lemma OthersAccount(s: State, op: Op)
    requires Accounted(s) && !op.TryWrite? && !op.TakePacket? && !op.ReadPacket?
    ensures Accounted(Apply(s, op))
  {
    hide Accounted;
    assert !s.writer.Idle? ==> s.writer.tries < MAX_TRIES by { FewTries(s); }
    SamePlaces(s, Apply(s, op));
  }

  lemma FewTries(s: State)
    requires Accounted(s)
    ensures !s.writer.Idle? ==> s.writer.tries < MAX_TRIES
  {
  }

  lemma TryAccounts(s: State, fails: bool)
    requires Accounted(s)
    ensures Accounted(Apply(s, TryWrite(fails)))
  {
    hide Times, Positions, RefusedPackets;
    var t := Apply(s, TryWrite(fails));
    if InHand(t.writer) == InHand(s.writer) {
      SamePlaces(s, t);
    } else {
      PacketsSnoc(s);
      TimesAppend(if t.delivered != s.delivered then Positions(s.delivered) else RefusedPackets(s.refused),
                  s.writer.pkt);
      forall p: nat
        ensures Places(t, p) == Places(s, p)
      {
      }
    }
  }

  lemma PacketsSnoc(s: State)
    ensures forall pkt, x :: Positions(s.delivered + [Delivery(pkt, x)]) == Positions(s.delivered) + [pkt]
    ensures forall pkt, n :: RefusedPackets(s.refused + [Refusal(pkt, n)]) == RefusedPackets(s.refused) + [pkt]
    ensures forall pkt, n :: LostPackets(s.dropped + [Lost(pkt, n)]) == LostPackets(s.dropped) + [pkt]
  {
  }

  lemma TakeAccounts(s: State)
    requires Accounted(s)
    ensures Accounted(Apply(s, TakePacket))
  {
    hide Times, Positions, RefusedPackets, LostPackets;
    var t := Apply(s, TakePacket);
    if t != s {
      TimesHead(s.queue);
      TimesAppend([], s.queue[0]);
      forall p: nat
        ensures Places(t, p) == Places(s, p)
      {
      }
    }
  }

  lemma ReadAccounts(s: State)
    requires Accounted(s)
    ensures Accounted(Apply(s, ReadPacket))
  {
    hide Times, Positions, RefusedPackets, LostPackets;
    var t := Apply(s, ReadPacket);
    PacketsSnoc(s);
    TimesAppend(if t.dropped != s.dropped then LostPackets(s.dropped) else s.queue, s.read);
    forall p: nat
      ensures Places(t, p) == Places(s, p) + if p == s.read then 1 else 0
    {
    }
  }

  lemma {:induction false} RunAccounts(s: State, ops: seq<Op>)
    requires Accounted(s)
    ensures Accounted(Run(s, ops))
    decreases |ops|
  {
    if ops != [] {
      StepAccounts(s, ops[0]);
      hide Accounted, Apply;
      RunAccounts(Apply(s, ops[0]), ops[1..]);
    }
  }

  lemma WithoutMiddle(a: seq<nat>, b: seq<nat>, c: seq<nat>)
    requires Ascending(a + b + c)
    ensures Ascending(a + c)
  {
    var all, some := a + b + c, a + c;
    forall i, j | 0 <= i < j < |some|
      ensures some[i] < some[j]
    {
      var i' := if i < |a| then i else i + |b|;
      var j' := if j < |a| then j else j + |b|;
      assert all[i'] == some[i] && all[j'] == some[j];
    }
  }

  lemma AppendLatest(a: seq<nat>, q: seq<nat>, n: nat)
    requires Ascending(a + q)
    requires (forall p :: p in a ==> p < n) && (forall p :: p in q ==> p < n)
    ensures Ascending(a + (q + [n]))
  {
    assert a + (q + [n]) == (a + q) + [n];
    forall i | 0 <= i < |a + q|
      ensures (a + q)[i] < n
    {
      assert (a + q)[i] in a || (a + q)[i] in q;
    }
  }

  function Run(s: State, ops: seq<Op>): State
    decreases |ops|
  {
    if ops == [] then s else Run(Apply(s, ops[0]), ops[1..])
  }

  lemma {:induction false} RunKeeps(s: State, ops: seq<Op>)
    requires Owned(s) && PacketsSound(s)
    ensures Owned(Run(s, ops)) && PacketsSound(Run(s, ops))
    decreases |ops|
  {
    if ops != [] {
      StepOwned(s, ops[0]);
      StepPackets(s, ops[0]);
      hide Owned, PacketsSound, Apply;
      RunKeeps(Apply(s, ops[0]), ops[1..]);
    }
  }

  lemma {:induction false} RunAppend(s: State, xs: seq<Op>, ys: seq<Op>)
    ensures Run(s, xs + ys) == Run(Run(s, xs), ys)
    ensures |ys| == 1 ==> Run(s, xs + ys) == Apply(Run(s, xs), ys[0])
    decreases |xs|
  {
    hide Apply;
    if xs == [] {
      assert xs + ys == ys;
    } else {
      RunAppend(Apply(s, xs[0]), xs[1..], ys);
      assert (xs + ys)[1..] == xs[1..] + ys;
    }
  }

  // ---------- Which session a packet goes to ----------

  /** The writer holds `pkt`, and `session` is active. */
  predicate ActiveFor(s: State, pkt: nat, session: nat) {
    s.writer.Holding? && s.writer.pkt == pkt && s.active == session
  }

  /** The writer is at `session` with `pkt`, and the session is open. */
  predicate OpenFor(s: State, pkt: nat, session: nat) {
    && s.writer.Writing? && s.writer.pkt == pkt && s.writer.session == session
    && session < |s.sessions| && !s.sessions[session].closed
  }

  function At(s: State, ops: seq<Op>, i: nat): State
    requires i <= |ops|
  {
    Run(s, ops[..i])
  }

  /** At step `i` the writer, with `pkt` in hand, loaded the active session, which was `session`. */
  predicate LoadedAt(s: State, ops: seq<Op>, i: nat, pkt: nat, session: nat) {
    i < |ops| && ops[i] == LoadActive && ActiveFor(At(s, ops, i), pkt, session)
  }

  /** At step `j` the session, still open, accepted the packet. */
  predicate AcceptedAt(s: State, ops: seq<Op>, j: nat, d: Delivery) {
    j < |ops| && ops[j] == TryWrite(false) && OpenFor(At(s, ops, j), d.pkt, d.session)
  }

  /** The packet was written to the session that was active when the writer, holding it, loaded it. */
  ghost predicate WentToActive(s: State, ops: seq<Op>, d: Delivery) {
    exists i: nat, j: nat :: i < j && LoadedAt(s, ops, i, d.pkt, d.session) && AcceptedAt(s, ops, j, d)
  }

  lemma LongerRun(s: State, ops: seq<Op>, op: Op)
    ensures Run(s, ops + [op]) == Apply(Run(s, ops), op)
    ensures forall i, pkt, x :: LoadedAt(s, ops, i, pkt, x) ==> LoadedAt(s, ops + [op], i, pkt, x)
    ensures forall j, d :: AcceptedAt(s, ops, j, d) ==> AcceptedAt(s, ops + [op], j, d)
    ensures At(s, ops + [op], |ops|) == Run(s, ops)
  {
    hide Run, Apply;
    RunAppend(s, ops, [op]);
    assert (ops + [op])[..|ops|] == ops;
    assert forall i :: 0 <= i < |ops| ==> (ops + [op])[..i] == ops[..i];
  }

  /** What the writer has loaded, and what was accepted since the run began. */
  ghost predicate Traced(s: State, ops: seq<Op>) {
    var t := Run(s, ops);
    && (t.writer.Writing? ==> exists i :: LoadedAt(s, ops, i, t.writer.pkt, t.writer.session))
    && |s.delivered| <= |t.delivered| && t.delivered[..|s.delivered|] == s.delivered
    && (forall n :: |s.delivered| <= n < |t.delivered| ==> WentToActive(s, ops, t.delivered[n]))
  }

  lemma {:induction false} RunTraced(s: State, ops: seq<Op>)
    requires !s.writer.Writing?
    ensures Traced(s, ops)
    decreases |ops|
  {
    if ops != [] {
      hide Run, Apply, Traced;
      var init, op := ops[..|ops| - 1], ops[|ops| - 1];
      assert ops == init + [op];
      RunTraced(s, init);
      StepTraced(s, init, op);
    } else {
      assert Run(s, ops) == s;
    }
  }

  lemma StepTraced(s: State, ops: seq<Op>, op: Op)
    requires Traced(s, ops)
    ensures Traced(s, ops + [op])
  {
    hide Run, ActiveFor, OpenFor, LoadedAt, AcceptedAt, At, WentToActive;
    LongerRun(s, ops, op);
    var t, u := Run(s, ops), Run(s, ops + [op]);
    StillWent(s, ops, op);
    if u.writer.Writing? && !t.writer.Writing? {
      JustLoaded(s, ops, op);
    } else if u.delivered != t.delivered {
      var i :| LoadedAt(s, ops, i, t.writer.pkt, t.writer.session);
      JustAccepted(s, ops, op, i);
    }
  }

  lemma StillWent(s: State, ops: seq<Op>, op: Op)
    ensures forall d :: WentToActive(s, ops, d) ==> WentToActive(s, ops + [op], d)
  {
    hide Run, LoadedAt, AcceptedAt;
    LongerRun(s, ops, op);
  }

  lemma JustLoaded(s: State, ops: seq<Op>, op: Op)
    requires Apply(Run(s, ops), op).writer.Writing? && !Run(s, ops).writer.Writing?
    ensures var u := Apply(Run(s, ops), op); LoadedAt(s, ops + [op], |ops|, u.writer.pkt, u.writer.session)
  {
    hide Run;
    LongerRun(s, ops, op);
  }

  lemma JustAccepted(s: State, ops: seq<Op>, op: Op, i: nat)
    requires Apply(Run(s, ops), op).delivered != Run(s, ops).delivered
    requires var t := Run(s, ops); t.writer.Writing? && LoadedAt(s, ops, i, t.writer.pkt, t.writer.session)
    ensures var t, u := Run(s, ops), Apply(Run(s, ops), op);
            var d := Delivery(t.writer.pkt, t.writer.session);
            u.delivered == t.delivered + [d] && WentToActive(s, ops + [op], d)
  {
    hide Run;
    LongerRun(s, ops, op);
    var t := Run(s, ops);
    var d := Delivery(t.writer.pkt, t.writer.session);
    assert LoadedAt(s, ops + [op], i, d.pkt, d.session) && AcceptedAt(s, ops + [op], |ops|, d);
  }

  /** While only the writer runs, that is the session active at the start. */
  lemma {:induction false} WriterAloneKeepsActive(s: State, ops: seq<Op>)
    requires forall i :: 0 <= i < |ops| ==> ByWriter(ops[i])
    ensures Run(s, ops).active == s.active
    decreases |ops|
  {
    if ops != [] {
      WriterAloneKeepsActive(Apply(s, ops[0]), ops[1..]);
    }
  }

  lemma AloneWentToActive(s: State, ops: seq<Op>, d: Delivery)
    requires WentToActive(s, ops, d) && forall i :: 0 <= i < |ops| ==> ByWriter(ops[i])
    ensures d.session == s.active
  {
    hide Run, AcceptedAt;
    var i: nat, j: nat :| i < j && LoadedAt(s, ops, i, d.pkt, d.session) && AcceptedAt(s, ops, j, d);
    WriterAloneKeepsActive(s, ops[..i]);
  }

  predicate ByWriter(op: Op) {
    op.TakePacket? || op.LoadActive? || op.TryWrite?
  }

  /** A session that is open takes the packet unless its write fails, a closed one never does; a packet
      that is not taken stays in hand, until its third try. */
  lemma AcceptedExactly(s: State, fails: bool)
    requires s.writer.Writing? && s.writer.session < |s.sessions|
    ensures var t := Apply(s, TryWrite(fails));
            var taken := !s.sessions[s.writer.session].closed && !fails;
            && t.delivered == s.delivered + (if taken then [Delivery(s.writer.pkt, s.writer.session)] else [])
            && (InHand(t.writer) == InHand(s.writer) <==> !taken && s.writer.tries + 1 < MAX_TRIES)
            && (t.writer.Idle? || t.writer == Holding(s.writer.pkt, s.writer.tries + 1))
            && t.sessions == s.sessions && t.active == s.active && t.queue == s.queue
  {
  }

  // ---------- What the loops achieve ----------

  /** A rotation makes the session it established active, at once, and when the grace period of the one
      it replaced is over, that one is closed and no other has changed. */
  lemma RotationReplaces(s: State)
    requires Owned(s)
    ensures var e := Apply(s, RotationEstablish);
            && e.rotated.Some? && e.active == s.active
            && (s.rotated.None? ==> e.sessions == s.sessions + [FRESH] && e.rotated.value == |s.sessions|)
    ensures s.rotated.Some? ==>
              var t := Apply(s, RotationSwap);
              var u := Apply(t, GraceOver(|s.retiring|));
              && s.active < |s.sessions|
              && t.active == s.rotated.value && t.sessions == s.sessions && t.rotated.None?
              && u.active == t.active && u.retiring == s.retiring
              && u.sessions == s.sessions[s.active := Close(s.sessions[s.active])]
              && u.sessions[s.active].closed
  {
    ActiveHeld(s);
    assert (s.retiring + [s.active])[..|s.retiring|] + [] == s.retiring;
  }

  /** The watchdog closes the session it replaced itself. */
  lemma WatchdogReplaces(s: State)
    requires Owned(s)
    ensures var e := Apply(s, WatchdogEstablish);
            && (s.closing.None? ==> e.reconnected.Some?) && e.active == s.active
            && (s.reconnected.None? && s.closing.None? ==>
                  e.sessions == s.sessions + [FRESH] && e.reconnected.value == |s.sessions|)
    ensures s.reconnected.Some? && s.closing.None? ==>
              var t := Apply(s, WatchdogSwap);
              var u := Apply(t, WatchdogClose);
              && s.active < |s.sessions|
              && t.active == s.reconnected.value && t.sessions == s.sessions && t.reconnected.None?
              && u.active == t.active && u.closing.None? && u.retiring == s.retiring
              && u.sessions == s.sessions[s.active := Close(s.sessions[s.active])]
              && u.sessions[s.active].closed
  {
    ActiveHeld(s);
  }

  /** Whatever happens between the two halves of shutdown, the session that was active at the first is
      closed after the second. */
  lemma ShutdownCloses(s: State, ops: seq<Op>)
    requires Owned(s) && s.loaded.None?
    ensures var t := Apply(Run(Apply(s, ShutdownLoad), ops), ShutdownClose);
            s.active < |t.sessions| && t.sessions[s.active].closed
  {
    ActiveHeld(s);
    LastFollows(s);
    LoadedStays(Apply(s, ShutdownLoad), ops, s.active);
  }

  lemma LastFollows(s: State)
    requires Owned(s) && s.loaded.None?
    ensures s.last.None?
  {
  }

  /** Session `i` is the one that shutdown loaded, and is closed if shutdown closed one. */
  predicate ForShutdown(s: State, i: nat) {
    s.loaded == Some(i) && i < |s.sessions| && (s.last.Some? ==> s.sessions[i].closed)
  }

  lemma {:induction false} LoadedStays(s: State, ops: seq<Op>, i: nat)
    requires ForShutdown(s, i)
    ensures ForShutdown(Run(s, ops), i)
    decreases |ops|
  {
    if ops != [] {
      LoadedStaysOnce(s, ops[0], i);
      hide Apply, ForShutdown;
      LoadedStays(Apply(s, ops[0]), ops[1..], i);
    }
  }

  lemma LoadedStaysOnce(s: State, op: Op, i: nat)
    requires ForShutdown(s, i)
    ensures ForShutdown(Apply(s, op), i)
  {
  }

  // ---------- Every run ----------

  /** For every interleaving of rotation loop, watchdog, grace periods, shutdown and packets: each
      session not closed has exactly one owner, the active session is open unless shutdown closed
      it, close is called at most once for a session (twice for the one that shutdown took), and
      the packets that sessions accepted are packets read from the device, each accepted once and in
      the order read, by the session that was active when the writer, holding it, loaded it, and that
      was still open then; every packet read is accepted, in hand, waiting, dropped when 512 waited, or
      given up after three tries. Once no loop holds a session, all but the active one are closed. */
  lemma EveryRun(ops: seq<Op>)
    ensures var s := Run(START, ops);
            && (forall i :: 0 <= i < |s.sessions| && !s.sessions[i].closed ==> Holders(s, i) == 1)
            && (forall i: nat :: Holders(s, i) > 0 && s.last != Some(i) ==> i < |s.sessions| && !s.sessions[i].closed)
            && (forall i :: 0 <= i < |s.sessions| ==> s.sessions[i].calls <= if s.last == Some(i) then 2 else 1)
            && Ascending(Positions(s.delivered))
            && (forall d :: d in s.delivered ==> d.pkt < s.read)
            && (forall d :: d in s.delivered ==> WentToActive(START, ops, d))
            && Accounted(s)
            && (s.rotated.None? && s.reconnected.None? && s.retiring == [] && s.closing.None? ==>
                  forall i :: 0 <= i < |s.sessions| && i != s.active ==> s.sessions[i].closed)
  {
    StartSound();
    RunKeeps(START, ops);
    RunAccounts(START, ops);
    RunTraced(START, ops);
    var s := Run(START, ops);
    assert s.rotated.None? && s.reconnected.None? && s.retiring == [] && s.closing.None? ==>
        forall i: nat :: i != s.active ==> Holders(s, i) == 0;
    hide Run, Holders, Accounted, WentToActive;
    var ps := Positions(s.delivered);
    assert forall i :: 0 <= i < |ps| ==> ps[i] == (ps + InHand(s.writer) + s.queue)[i];
  }
}
