/** One logical stream: a queue of whole messages on the read side, a closed flag on the write
    side. Each value carries a log of what happened to it, for stating what a run achieved. */
module Streams {
  import opened Bytes
  import opened Io
  import opened Codec

  /** What a frame means to the stream it names. */
  datatype Event = Opened | Data(payload: bytes) | Closed

  /** Why the read side ended: the local Close, the peer's STREAM_CLOSE, or the connection's end. */
  datatype Cause = ByOwner | ByPeer | ByConn

  /** `sent` are the events written to the peer, `seen` those that arrived from it; `got` are the
      messages enqueued, `results` what each successful read returned and `taken` their bytes; `roomy`
      says that every read so far had room for its whole message. */
  datatype Log = Log(
    sent: seq<Event>,
    seen: seq<Event>,
    got: seq<bytes>,
    results: seq<bytes>,
    taken: bytes,
    roomy: bool,
    cause: Option<Cause>)

  datatype Stream = Stream(
    id: u32,
    readMsgs: seq<bytes>,
    readOff: nat,
    readErr: Option<Error>,
    closed: bool,
    log: Log)

  function Fresh(id: u32): Stream {
    Stream(id, [], 0, None, false, Log([], [], [], [], [], true, None))
  }

  // ---------- The read side ----------

  function DeliverData(s: Stream, data: bytes): Stream {
    if s.readErr.Some? then s
    else s.(readMsgs := s.readMsgs + [data], log := s.log.(got := s.log.got + [data]))
  }

  function DeliverErr(s: Stream, cause: Cause): Stream {
    if s.readErr.Some? then s
    else s.(readErr := Some(EOF), log := s.log.(cause := Some(cause)))
  }

  datatype ReadResult = Blocked | Read(got: bytes) | Failed(error: Error)

  /** The offset lies inside the first message; without messages it is 0. */
  predicate OffsetOK(s: Stream) {
    if s.readMsgs == [] then s.readOff == 0 else s.readOff <= |s.readMsgs[0]|
  }

  function ReadOutcome(s: Stream, n: nat): ReadResult
    requires OffsetOK(s)
  {
    if s.readMsgs != [] then
      var rest := s.readMsgs[0][s.readOff..];
      Read(rest[..Min(n, |rest|)])
    else
      match s.readErr
      case Some(e) => Failed(e)
      case None => Blocked
  }

  function AfterRead(s: Stream, n: nat): Stream
    requires OffsetOK(s)
  {
    if s.readMsgs == [] then s
    else
      var got := ReadOutcome(s, n).got;
      var off := s.readOff + |got|;
      var log := s.log.(results := s.log.results + [got], taken := s.log.taken + got,
                        roomy := s.log.roomy && n >= |s.readMsgs[0]|);
      if off >= |s.readMsgs[0]| then s.(readMsgs := s.readMsgs[1..], readOff := 0, log := log)
      else s.(readOff := off, log := log)
  }

  // ---------- Arrivals ----------

  /** An event arrives for this stream; only a stream still in the connection's table reacts. */
  function Arrive(s: Stream, e: Event, registered: bool): Stream {
    var t := s.(log := s.log.(seen := s.log.seen + [e]));
    if !registered then t
    else match e
      case Data(p) => DeliverData(t, p)
      case Closed => DeliverErr(t, ByPeer)
      case Opened => t
  }

  function Payloads(es: seq<Event>): seq<bytes> {
    if es == [] then []
    else Payloads(es[..|es| - 1]) + match es[|es| - 1] case Data(p) => [p] case _ => []
  }

  /** The events up to, and without, the first Closed. */
  function BeforeClose(es: seq<Event>): seq<Event> {
    if es == [] then []
    else
      var init := es[..|es| - 1];
      if Closed in init || es[|es| - 1] == Closed then BeforeClose(init) else es
  }

  // ---------- What every stream keeps ----------

  predicate Sound(s: Stream) {
    && OffsetOK(s)
    && (s.readErr.Some? <==> s.log.cause.Some?)
    && (s.readErr.Some? ==> s.readErr.value == EOF)
    && QueueSound(s) && SourceSound(s)
  }

  function Taken(s: Stream): int {
    |s.log.got| - |s.readMsgs|
  }

  /** The queue is the end of the messages enqueued; the bytes read are the messages before it and
      the part of its first message already taken. Readers with room get the messages themselves. */
  predicate QueueSound(s: Stream)
  {
    && 0 <= Taken(s)
    && s.readMsgs == s.log.got[Taken(s)..]
    && OffsetOK(s)
    && s.log.taken == Concat(s.log.got[..Taken(s)]) + (if s.readMsgs == [] then [] else s.readMsgs[0][..s.readOff])
    && (s.log.roomy ==> s.readOff == 0 && s.log.results == s.log.got[..Taken(s)])
  }

  /** The messages enqueued are those that arrived: all of them while the stream lives, all before
      the STREAM_CLOSE if that ended it, and a prefix of those if the local side ended it. */
  predicate SourceSound(s: Stream) {
    match s.log.cause
    case None => Closed !in s.log.seen && s.log.got == Payloads(s.log.seen)
    case Some(ByPeer) => Closed in s.log.seen && s.log.got == Payloads(BeforeClose(s.log.seen))
    case Some(_) => s.log.got <= Payloads(BeforeClose(s.log.seen))
  }

  lemma FreshSound(id: u32, sent: seq<Event>, seen: seq<Event>)
    requires seen == [] || seen == [Opened]
    ensures var s := Fresh(id); Sound(s.(log := s.log.(sent := sent, seen := seen)))
  {
    if seen == [Opened] {
      assert seen[..0] == [];
    }
  }

  lemma BeforeCloseSnoc(es: seq<Event>, e: Event)
    ensures BeforeClose(es + [e]) == if Closed in es || e == Closed then BeforeClose(es) else es + [e]
    ensures Payloads(es + [e]) == Payloads(es) + match e case Data(p) => [p] case _ => []
  {
  }

  lemma {:induction false} BeforeCloseAll(es: seq<Event>)
    requires Closed !in es
    ensures BeforeClose(es) == es
  {
  }

  lemma ArriveSound(s: Stream, e: Event, registered: bool)
    requires Sound(s)
    requires registered <==> Closed !in s.log.seen
    requires e != Opened
    ensures Sound(Arrive(s, e, registered))
  {
    ArriveQueue(s, e, registered);
    ArriveSource(s, e, registered);
    hide QueueSound, SourceSound;
  }

  lemma ArriveKeeps(s: Stream, e: Event, registered: bool)
    ensures var t := Arrive(s, e, registered);
            && t.id == s.id && t.closed == s.closed
            && t.log.sent == s.log.sent && t.log.seen == s.log.seen + [e]
  {
  }

  lemma ArriveSource(s: Stream, e: Event, registered: bool)
    requires SourceSound(s) && (s.readErr.Some? <==> s.log.cause.Some?)
    requires registered <==> Closed !in s.log.seen
    requires e != Opened
    ensures SourceSound(Arrive(s, e, registered))
  {
    hide Payloads, BeforeClose;
    BeforeCloseSnoc(s.log.seen, e);
    if registered {
      BeforeCloseAll(s.log.seen);
      if e != Closed {
        BeforeCloseAll(s.log.seen + [e]);
      }
    }
  }

  lemma ArriveQueue(s: Stream, e: Event, registered: bool)
    requires Sound(s)
    ensures QueueSound(Arrive(s, e, registered))
  {
    var t := Arrive(s, e, registered);
    if t.readMsgs != s.readMsgs {
      assert t.log.got[..Taken(s)] == s.log.got[..Taken(s)];
      assert t.log.got[Taken(s)..] == s.log.got[Taken(s)..] + [e.payload];
      if s.readMsgs == [] {
        assert t.readMsgs[0][..0] == [];
      }
    }
  }

  lemma DeliverErrSound(s: Stream, cause: Cause)
    requires Sound(s) && cause != ByPeer
    ensures Sound(DeliverErr(s, cause))
  {
  }

  lemma ReadSound(s: Stream, n: nat)
    requires Sound(s)
    ensures Sound(AfterRead(s, n))
  {
    if s.readMsgs != [] {
      var got := ReadOutcome(s, n).got;
      assert s.readMsgs[0] == s.log.got[Taken(s)];
      if s.readOff + |got| >= |s.readMsgs[0]| {
        ReadWholeSound(s, n);
      } else {
        ReadPartSound(s, n);
      }
    }
  }

  lemma ReadPartSound(s: Stream, n: nat)
    requires Sound(s) && s.readMsgs != []
    requires s.readOff + |ReadOutcome(s, n).got| < |s.readMsgs[0]|
    ensures Sound(AfterRead(s, n))
  {
  }

  lemma ReadWholeSound(s: Stream, n: nat)
    requires Sound(s) && s.readMsgs != []
    requires s.readOff + |ReadOutcome(s, n).got| >= |s.readMsgs[0]|
    ensures Sound(AfterRead(s, n))
  {
    hide Concat, SourceSound;
    var t := AfterRead(s, n);
    var msg, k, got := s.readMsgs[0], Taken(s), ReadOutcome(s, n).got;
    assert msg == s.log.got[k];
    assert msg[..s.readOff] + got == msg;
    assert s.log.got[..k + 1] == s.log.got[..k] + [msg];
    ConcatSnoc(s.log.got[..k], msg);
    assert s.log.got[k..][1..] == s.log.got[k + 1..];
    Assoc(Concat(s.log.got[..k]), msg[..s.readOff], got);
    var before := Concat(s.log.got[..k + 1]);
    assert before + [] == before;
    if t.readMsgs != [] {
      assert t.readMsgs[0][..0] == [];
    }
    assert SourceSound(t) by { SameSource(s, t); }
  }

  lemma SameSource(s: Stream, t: Stream)
    requires SourceSound(s)
    requires t.log.cause == s.log.cause && t.log.seen == s.log.seen && t.log.got == s.log.got
    ensures SourceSound(t)
  {
  }

  // ---------- What readers get ----------

  /** What a read of up to `n` bytes reports: bytes while messages are queued, then the end, and if there
      is neither it waits. */
  lemma ReadReports(s: Stream, n: nat)
    requires Sound(s)
    ensures ReadOutcome(s, n).Read? <==> s.readMsgs != []
    ensures ReadOutcome(s, n) == Failed(EOF) <==> s.readMsgs == [] && s.readErr.Some?
    ensures ReadOutcome(s, n) == Blocked <==> s.readMsgs == [] && s.readErr.None?
  {
  }

  /** A read never spans two messages. It fills the caller's buffer or gets all that is left of its
      message; so a reader with room gets one whole message. */
  lemma ReadStaysInMessage(s: Stream, n: nat)
    requires Sound(s) && s.readMsgs != []
    ensures ReadOutcome(s, n).Read? && |ReadOutcome(s, n).got| <= n
    ensures |ReadOutcome(s, n).got| == n || s.readOff + |ReadOutcome(s, n).got| == |s.readMsgs[0]|
    ensures s.readMsgs[0][..s.readOff] + ReadOutcome(s, n).got <= s.readMsgs[0]
    ensures s.log.roomy && n >= |s.readMsgs[0]| ==>
              ReadOutcome(s, n).got == s.readMsgs[0] && AfterRead(s, n).readMsgs == s.readMsgs[1..]
  {
  }

  /** Bytes enqueued are conserved: they were read, or are still in the queue. */
  lemma Conserved(s: Stream)
    requires Sound(s)
    ensures Concat(s.log.got) == s.log.taken +
              (if s.readMsgs == [] then [] else s.readMsgs[0][s.readOff..] + Concat(s.readMsgs[1..]))
  {
    var k := Taken(s);
    assert s.log.got == s.log.got[..k] + s.readMsgs;
    ConcatAppend(s.log.got[..k], s.readMsgs);
    if s.readMsgs != [] {
      assert s.readMsgs[0] == s.readMsgs[0][..s.readOff] + s.readMsgs[0][s.readOff..];
    } else {
      assert Concat(s.readMsgs) == [];
    }
  }

  // Readers that go on reading get everything.

  /** Reads with buffers of the sizes `ns`, one after the other. */
  function ReadAll(s: Stream, ns: seq<nat>): Stream
    requires OffsetOK(s)
    decreases |ns|
  {
    if ns == [] then s else AfterReadOK(s, ns[0]); ReadAll(AfterRead(s, ns[0]), ns[1..])
  }

  lemma AfterReadOK(s: Stream, n: nat)
    requires OffsetOK(s)
    ensures OffsetOK(AfterRead(s, n))
  {
  }

  /** The bytes and messages still to be read. */
  function Backlog(s: Stream): int {
    |Concat(s.readMsgs)| + |s.readMsgs| - s.readOff
  }

  lemma ReadLowers(s: Stream, n: nat)
    requires Sound(s) && n > 0
    ensures Backlog(s) >= 0 && (Backlog(s) == 0 <==> s.readMsgs == [])
    ensures s.readMsgs != [] ==> Backlog(AfterRead(s, n)) < Backlog(s)
    ensures AfterRead(s, n).log.got == s.log.got
    ensures s.readMsgs == [] ==> AfterRead(s, n) == s
  {
    if s.readMsgs != [] {
      assert |Concat(s.readMsgs)| == |s.readMsgs[0]| + |Concat(s.readMsgs[1..])|;
    }
  }

  /** Whatever the sizes of the buffers, as long as they are not empty: once there were as many reads as
      bytes and messages were queued, everything enqueued has been read, in order. */
  lemma {:induction false} ReadersGetEverything(s: Stream, ns: seq<nat>)
    requires Sound(s) && |ns| >= Backlog(s)
    requires forall i :: 0 <= i < |ns| ==> ns[i] > 0
    ensures var t := ReadAll(s, ns);
            t.readMsgs == [] && t.log.got == s.log.got && t.log.taken == Concat(s.log.got)
    decreases |ns|
  {
    if ns == [] {
      ReadLowers(s, 1);
      EmptyIsRead(s);
    } else {
      hide Sound, AfterRead, Backlog;
      ReadLowers(s, ns[0]);
      ReadSound(s, ns[0]);
      ReadersGetEverything(AfterRead(s, ns[0]), ns[1..]);
    }
  }

  lemma EmptyIsRead(s: Stream)
    requires Sound(s) && s.readMsgs == []
    ensures s.log.taken == Concat(s.log.got)
  {
    assert s.log.got[..Taken(s)] == s.log.got;
  }

  /** An end of stream is reported only when every enqueued message has been read in full; from
      then on every read reports it, and nothing is enqueued any more. */
  lemma EndIsPermanent(s: Stream, n: nat, e: Event, registered: bool, cause: Cause)
    requires Sound(s) && s.readErr.Some?
    ensures (ReadOutcome(s, n) == Failed(EOF) <==> s.readMsgs == [])
    ensures s.readMsgs == [] ==> s.log.taken == Concat(s.log.got) && AfterRead(s, n) == s
    ensures AfterRead(s, n).readErr == s.readErr && AfterRead(s, n).log.got == s.log.got
    ensures Arrive(s, e, registered).readErr == s.readErr && Arrive(s, e, registered).log.got == s.log.got
    ensures DeliverErr(s, cause) == s
  {
    if s.readMsgs == [] {
      assert s.log.got[..Taken(s)] == s.log.got;
    }
  }

  // ---------- The write side ----------

  /** The frames' payloads that one Write of `p` sends. */
  function Chunks(p: bytes): (cs: seq<bytes>)
    ensures forall i :: 0 <= i < |cs| ==> 1 <= |cs[i]| <= MAX_PAYLOAD
  {
    if p == [] then []
    else if |p| <= MAX_PAYLOAD then [p]
    else [p[..MAX_PAYLOAD]] + Chunks(p[MAX_PAYLOAD..])
  }

  /** The chunks are the bytes; all but the last are as large as a frame can carry. */
  lemma {:induction false} ChunksConcat(p: bytes)
    ensures Concat(Chunks(p)) == p
    ensures forall i :: 0 <= i < |Chunks(p)| - 1 ==> |Chunks(p)[i]| == MAX_PAYLOAD
  {
    if |p| > MAX_PAYLOAD {
      ChunksConcat(p[MAX_PAYLOAD..]);
      assert Chunks(p)[1..] == Chunks(p[MAX_PAYLOAD..]);
    } else if p != [] {
      ConcatOne(p);
    }
  }

  /** A write is one message exactly when it is not empty and fits one frame. */
  lemma OneMessageIff(p: bytes)
    ensures Chunks(p) == [p] <==> 1 <= |p| <= MAX_PAYLOAD
  {
  }
}
