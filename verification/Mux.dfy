/** One end of a multiplexed connection: stream ids, the table of streams, and what each arriving
    frame does. */
module Mux {
  import opened Bytes
  import opened Codec
  import S = Streams

  /** History of a connection: how many streams it opened, the cookies of the PINGs it sent and of
      the PONGs that came back, and the same for the peer's PINGs that arrived and were answered. */
  datatype ConnLog = ConnLog(
    opens: nat,
    pingsSent: seq<bytes>,
    pongsSeen: seq<bytes>,
    pingsSeen: seq<bytes>,
    pongsSent: seq<bytes>)

  /** `objects` holds the latest stream created under each id, `table` the ids that arriving frames
      still reach. A stream taken out of the table lives on for those who hold it. */
  datatype Conn = Conn(
    isClient: bool,
    nextID: u32,
    objects: map<u32, S.Stream>,
    table: set<u32>,
    done: bool,
    reading: bool,
    log: ConnLog)

  // ---------- Stream ids ----------

  function FirstID(isClient: bool): u32 {
    if isClient then 1 else 2
  }

  /** The id of the n-th stream a side opens; ids are 32 bits wide and wrap. */
  function NthID(isClient: bool, n: nat): u32 {
    (FirstID(isClient) + 2 * n) % 0x1_0000_0000
  }

  /** Ids of the two sides never meet, wrapped or not; on one side two opens share an id exactly
      when a multiple of 2^31 opens lies between them. */
  lemma IdsCollideOnlyAfterWrap(isClient: bool, m: nat, n: nat)
    ensures NthID(isClient, m) != NthID(!isClient, n)
    ensures NthID(isClient, m) == NthID(isClient, n) <==> (n - m) % 0x8000_0000 == 0
  {
    var a, b := FirstID(isClient) + 2 * m, FirstID(isClient) + 2 * n;
    Congruent(a, b, 0x1_0000_0000);
    assert b - a == 2 * (n - m);
    Doubled(n - m);
    Parity(isClient, m);
    Parity(!isClient, n);
  }

  lemma Congruent(a: int, b: int, modulus: int)
    requires modulus == 0x1_0000_0000
    ensures a % modulus == b % modulus <==> (b - a) % modulus == 0
  {
    assert b - a == modulus * (b / modulus - a / modulus) + (b % modulus - a % modulus);
  }

  lemma Doubled(d: int)
    ensures (2 * d) % 0x1_0000_0000 == 0 <==> d % 0x8000_0000 == 0
  {
    assert d == 0x8000_0000 * (d / 0x8000_0000) + d % 0x8000_0000;
    assert 2 * d == 0x1_0000_0000 * (d / 0x8000_0000) + 2 * (d % 0x8000_0000);
  }

  lemma Parity(isClient: bool, n: nat)
    ensures NthID(isClient, n) % 2 == FirstID(isClient) % 2
  {
    var a := FirstID(isClient) + 2 * n;
    assert a == 0x1_0000_0000 * (a / 0x1_0000_0000) + a % 0x1_0000_0000;
  }

  function New(isClient: bool): Conn {
    Conn(isClient, FirstID(isClient), map[], {}, false, true, ConnLog(0, [], [], [], []))
  }

  predicate Own(isClient: bool, id: u32) {
    id % 2 == FirstID(isClient) % 2
  }

  // ---------- Frames built by a connection ----------

  function MakeFrame(ftype: byte, id: u32, payload: bytes): Frame {
    Frame(PROTOCOL_VERSION, ftype, id, payload)
  }

  // ---------- Operations; `ok` is whether the encoder accepted the frame ----------

  /** A stream whose STREAM_OPEN could not be written is taken back; its id stays used. */
  function OpenStream(c: Conn, ok: bool): Conn {
    var id := c.nextID;
    var c' := c.(nextID := (c.nextID + 2) % 0x1_0000_0000, log := c.log.(opens := c.log.opens + 1));
    if ok then
      var s := S.Fresh(id);
      c'.(objects := c.objects[id := s.(log := s.log.(sent := [S.Opened]))], table := c.table + {id})
    else c'.(table := c.table - {id})
  }

  function Logged(s: S.Stream, e: S.Event, ok: bool): S.Stream {
    if ok then s.(log := s.log.(sent := s.log.sent + [e])) else s
  }

  /** One DATA frame of a Write. */
  function SendData(c: Conn, id: u32, chunk: bytes, ok: bool): Conn
    requires id in c.objects
  {
    c.(objects := c.objects[id := Logged(c.objects[id], S.Data(chunk), ok)])
  }

  /** Stream.Close the first time it is called. The table keeps the id. */
  function CloseStream(c: Conn, id: u32, ok: bool): Conn
    requires id in c.objects
  {
    var s := S.DeliverErr(c.objects[id].(closed := true), S.ByOwner);
    c.(objects := c.objects[id := Logged(s, S.Closed, ok)])
  }

  function SendPing(c: Conn, cookie: bytes, ok: bool): Conn {
    if ok then c.(log := c.log.(pingsSent := c.log.pingsSent + [cookie])) else c
  }

  function ReadStream(c: Conn, id: u32, n: nat): Conn
    requires id in c.objects && S.OffsetOK(c.objects[id])
  {
    c.(objects := c.objects[id := S.AfterRead(c.objects[id], n)])
  }

  /** Conn.Close: every stream in the table ends. */
  function Close(c: Conn): Conn {
    if c.done then c
    else c.(done := true,
            objects := map k | k in c.objects ::
              if k in c.table then S.DeliverErr(c.objects[k], S.ByConn) else c.objects[k])
  }

  /** readLoop stops at the first error and closes the connection. */
  function StopReading(c: Conn): Conn {
    Close(c).(reading := false)
  }

  // ---------- Dispatch ----------

  /** What the frame asks to be sent back. */
  function Reply(f: Frame): Option<Frame> {
    if f.ftype == TYPE_PING then Some(MakeFrame(TYPE_PONG, 0, f.payload)) else None
  }

  function EventOf(f: Frame): Option<S.Event> {
    if f.ftype == TYPE_DATA then Some(S.Data(f.payload))
    else if f.ftype == TYPE_STREAM_OPEN then Some(S.Opened)
    else if f.ftype == TYPE_STREAM_CLOSE then Some(S.Closed)
    else None
  }

  /** The connection after a frame arrives; `ok` is whether its reply, if any, was accepted. */
  function Dispatch(c: Conn, f: Frame, ok: bool): Conn {
    var id := f.streamID;
    if f.ftype == TYPE_DATA then
      if id in c.objects then
        c.(objects := c.objects[id := S.Arrive(c.objects[id], S.Data(f.payload), id in c.table)])
      else c
    else if f.ftype == TYPE_STREAM_OPEN then
      var s := S.Fresh(id);
      c.(objects := c.objects[id := s.(log := s.log.(seen := [S.Opened]))], table := c.table + {id})
    else if f.ftype == TYPE_STREAM_CLOSE then
      if id in c.objects then
        c.(objects := c.objects[id := S.Arrive(c.objects[id], S.Closed, id in c.table)], table := c.table - {id})
      else c.(table := c.table - {id})
    else if f.ftype == TYPE_PING then
      c.(log := c.log.(pingsSeen := c.log.pingsSeen + [f.payload],
                       pongsSent := if ok then c.log.pongsSent + [f.payload] else c.log.pongsSent))
    else if f.ftype == TYPE_PONG then
      c.(log := c.log.(pongsSeen := c.log.pongsSeen + [f.payload]))
    else c
  }

  // ---------- What every connection keeps ----------

  /** Below the wrap, own ids are the opens so far, in order; the table holds exactly the streams
      the peer has not closed. A side's events on a stream it opened begin with the only Opened;
      on the peer's streams it sends no Opened, and saw exactly one, first. */
  ghost predicate Sound(c: Conn) {
    && c.nextID == NthID(c.isClient, c.log.opens)
    && c.table <= c.objects.Keys
    && (forall k :: k in c.objects ==> StreamOK(c, k))
  }

  predicate StreamOK(c: Conn, k: u32)
    requires k in c.objects
  {
    var s := c.objects[k];
    && s.id == k && S.Sound(s)
    && (k in c.table <==> S.Closed !in s.log.seen)
    && (S.Closed in s.log.sent ==> s.closed)
    && OnceClosed(s.log.sent)
    && (if Own(c.isClient, k) then
          && Taken(c.isClient, k, c.log.opens)
          && OpensOnce(s.log.sent) && S.Opened !in s.log.seen
        else OpensOnce(s.log.seen) && S.Opened !in s.log.sent)
  }

  /** The id of one of the first `opens` streams of a side, of which there are at most 2^31; the last id
      of a server is 0. */
  predicate Taken(isClient: bool, k: u32, opens: nat) {
    FirstID(isClient) <= k < FirstID(isClient) + 2 * opens || (k == 0 && !isClient && opens >= 0x8000_0000)
  }

  predicate OpensOnce(es: seq<S.Event>) {
    es != [] && es[0] == S.Opened && S.Opened !in es[1..]
  }

  predicate OnceClosed(es: seq<S.Event>) {
    forall i, j :: 0 <= i < j < |es| ==> es[i] != S.Closed || es[j] != S.Closed
  }

  lemma NewSound(isClient: bool)
    ensures Sound(New(isClient))
  {
  }

  /** Below 2^31 opens a new stream gets an id no other stream of this connection has. */
  lemma OpenSound(c: Conn, ok: bool)
    requires Sound(c) && c.log.opens < 0x8000_0000
    ensures Sound(OpenStream(c, ok))
    ensures c.nextID !in c.objects && Own(c.isClient, c.nextID)
  {
    hide S.Sound, NthID, StreamOK, OpensOnce, OnceClosed;
    NextNth(c.isClient, c.log.opens);
    FreshID(c);
    if ok {
      NewStreamOK(c);
    }
    OthersOK(c, OpenStream(c, ok), c.nextID);
  }

  lemma FreshID(c: Conn)
    requires Sound(c) && c.log.opens < 0x8000_0000
    ensures c.nextID !in c.objects && Own(c.isClient, c.nextID)
    ensures Taken(c.isClient, c.nextID, c.log.opens + 1)
  {
    hide S.Sound, NthID, OpensOnce, OnceClosed;
    NextNth(c.isClient, c.log.opens);
    forall k | k in c.objects
      ensures k != c.nextID
    {
      assert StreamOK(c, k);
    }
  }

  lemma NewStreamOK(c: Conn)
    requires Own(c.isClient, c.nextID) && Taken(c.isClient, c.nextID, c.log.opens + 1)
    ensures StreamOK(OpenStream(c, true), c.nextID)
  {
    hide S.Sound, Own;
    S.FreshSound(c.nextID, [S.Opened], []);
  }

  lemma NextNth(isClient: bool, n: nat)
    ensures NthID(isClient, n + 1) == (NthID(isClient, n) + 2) % 0x1_0000_0000
    ensures n < 0x8000_0000 ==> Taken(isClient, NthID(isClient, n), n + 1) && !Taken(isClient, NthID(isClient, n), n)
    ensures Own(isClient, NthID(isClient, n))
  {
    Parity(isClient, n);
    var a := FirstID(isClient) + 2 * n;
    var q, r := a / 0x1_0000_0000, a % 0x1_0000_0000;
    if r + 2 < 0x1_0000_0000 {
      Remainder(q, r + 2);
    } else {
      Remainder(q + 1, r + 2 - 0x1_0000_0000);
    }
    if a < 0x1_0000_0000 {
      Remainder(0, a);
    } else if n < 0x8000_0000 {
      Remainder(1, 0);
    }
  }

  lemma Remainder(q: int, r: int)
    requires 0 <= r < 0x1_0000_0000
    ensures (0x1_0000_0000 * q + r) % 0x1_0000_0000 == r
  {
  }

  lemma SendDataSound(c: Conn, id: u32, chunk: bytes, ok: bool)
    requires Sound(c) && id in c.objects
    ensures Sound(SendData(c, id, chunk, ok))
  {
    assert StreamOK(c, id);
    var c' := SendData(c, id, chunk, ok);
    SentSame(c.objects[id], S.Data(chunk), ok);
    SentShape(c.objects[id].log.sent, S.Data(chunk));
    OthersOK(c, c', id);
  }

  lemma SentSame(s: S.Stream, e: S.Event, ok: bool)
    requires S.Sound(s)
    ensures S.Sound(Logged(s, e, ok))
  {
  }

  lemma SentShape(es: seq<S.Event>, e: S.Event)
    requires e != S.Opened
    ensures OpensOnce(es) ==> OpensOnce(es + [e])
    ensures S.Opened !in es ==> S.Opened !in es + [e]
    ensures OnceClosed(es) && (e != S.Closed || S.Closed !in es) ==> OnceClosed(es + [e])
  {
  }

  /** A change to one stream leaves the others as they were. */
  lemma OthersOK(c: Conn, c': Conn, id: u32)
    requires Sound(c) && c'.isClient == c.isClient && c'.log.opens >= c.log.opens
    requires forall k :: k in c'.objects && k != id ==>
      k in c.objects && c'.objects[k] == c.objects[k] && (k in c'.table <==> k in c.table)
    requires id in c'.objects ==> StreamOK(c', id)
    ensures forall k :: k in c'.objects ==> StreamOK(c', k)
  {
  }

  /** Closing a stream ends its own reader, after what is queued, and its writers; it sends at most one
      STREAM_CLOSE. */
  lemma CloseStreamSound(c: Conn, id: u32, ok: bool)
    requires Sound(c) && id in c.objects && !c.objects[id].closed
    ensures Sound(CloseStream(c, id, ok))
    ensures var s, t := c.objects[id], CloseStream(c, id, ok).objects[id];
            && t.closed && t.readErr.Some?
            && t.readMsgs == s.readMsgs && t.readOff == s.readOff
            && t.log.sent == s.log.sent + (if ok then [S.Closed] else [])
            && (forall k :: k in c.objects && k != id ==> CloseStream(c, id, ok).objects[k] == c.objects[k])
            && CloseStream(c, id, ok).table == c.table
  {
    hide S.Sound, S.DeliverErr, Logged, OpensOnce, OnceClosed;
    assert StreamOK(c, id);
    ClosedSound(c.objects[id], ok);
    SentShape(c.objects[id].log.sent, S.Closed);
    OthersOK(c, CloseStream(c, id, ok), id);
  }

  lemma ClosedSound(s: S.Stream, ok: bool)
    requires S.Sound(s)
    ensures var t := Logged(S.DeliverErr(s.(closed := true), S.ByOwner), S.Closed, ok);
            && S.Sound(t) && t.id == s.id && t.closed && t.log.seen == s.log.seen
            && t.readErr.Some? && t.readMsgs == s.readMsgs && t.readOff == s.readOff
            && t.log.sent == if ok then s.log.sent + [S.Closed] else s.log.sent
  {
    var t := s.(closed := true);
    assert S.Sound(t);
    S.DeliverErrSound(t, S.ByOwner);
    SentSame(S.DeliverErr(t, S.ByOwner), S.Closed, ok);
  }

  lemma ReadSound(c: Conn, id: u32, n: nat)
    requires Sound(c) && id in c.objects && S.OffsetOK(c.objects[id])
    ensures Sound(ReadStream(c, id, n))
  {
    hide S.Sound, S.AfterRead, OpensOnce, OnceClosed;
    assert StreamOK(c, id);
    S.ReadSound(c.objects[id], n);
    ReadKeeps(c.objects[id], n);
    OthersOK(c, ReadStream(c, id, n), id);
  }

  lemma ReadKeeps(s: S.Stream, n: nat)
    requires S.OffsetOK(s)
    ensures var t := S.AfterRead(s, n);
            S.OffsetOK(t) && t.id == s.id && t.closed == s.closed
            && t.log.sent == s.log.sent && t.log.seen == s.log.seen
  {
  }

  lemma CloseSound(c: Conn)
    requires Sound(c)
    ensures Sound(Close(c)) && Sound(StopReading(c))
  {
    hide S.Sound;
    forall k | k in c.objects
      ensures StreamOK(Close(c), k)
    {
      assert StreamOK(c, k);
      S.DeliverErrSound(c.objects[k], S.ByConn);
    }
  }

  lemma DispatchSound(c: Conn, f: Frame, ok: bool)
    requires Sound(c)
    requires f.ftype == TYPE_STREAM_OPEN ==> f.streamID !in c.objects && !Own(c.isClient, f.streamID)
    ensures Sound(Dispatch(c, f, ok))
  {
    hide Sound, Dispatch;
    if f.ftype == TYPE_STREAM_OPEN {
      DispatchOpenSound(c, f, ok);
    } else if (f.ftype == TYPE_DATA || f.ftype == TYPE_STREAM_CLOSE) && f.streamID in c.objects {
      DispatchEventSound(c, f, ok);
    } else {
      DispatchOtherSound(c, f, ok);
    }
  }

  lemma DispatchOtherSound(c: Conn, f: Frame, ok: bool)
    requires Sound(c) && f.ftype != TYPE_STREAM_OPEN
    requires f.ftype == TYPE_DATA || f.ftype == TYPE_STREAM_CLOSE ==> f.streamID !in c.objects
    ensures Sound(Dispatch(c, f, ok))
    ensures var c' := Dispatch(c, f, ok);
            c'.objects == c.objects && c'.table == c.table && c'.isClient == c.isClient && c'.log.opens == c.log.opens
  {
    hide StreamOK;
    SameStreams(c, Dispatch(c, f, ok));
  }

  lemma SameStreams(c: Conn, c': Conn)
    requires Sound(c)
    requires c'.objects == c.objects && c'.table == c.table && c'.isClient == c.isClient
    requires c'.log.opens == c.log.opens && c'.nextID == c.nextID
    ensures Sound(c')
  {
  }

  lemma DispatchOpenSound(c: Conn, f: Frame, ok: bool)
    requires Sound(c) && f.ftype == TYPE_STREAM_OPEN
    requires f.streamID !in c.objects && !Own(c.isClient, f.streamID)
    ensures Sound(Dispatch(c, f, ok))
  {
  }

  lemma DispatchEventSound(c: Conn, f: Frame, ok: bool)
    requires Sound(c) && f.streamID in c.objects && (f.ftype == TYPE_DATA || f.ftype == TYPE_STREAM_CLOSE)
    ensures Sound(Dispatch(c, f, ok))
  {
    hide S.Sound, S.DeliverData, S.DeliverErr;
    var id := f.streamID;
    var e := EventOf(f).value;
    assert StreamOK(c, id);
    S.ArriveSound(c.objects[id], e, id in c.table);
    S.ArriveKeeps(c.objects[id], e, id in c.table);
    SentShape(c.objects[id].log.seen, e);
    OthersOK(c, Dispatch(c, f, ok), id);
  }

  // ---------- Projections of a frame list ----------

  function Events(k: u32, q: seq<Frame>): seq<S.Event> {
    if q == [] then []
    else (if q[0].streamID == k && EventOf(q[0]).Some? then [EventOf(q[0]).value] else []) + Events(k, q[1..])
  }

  /** The payloads of the frames of one type. */
  function OfType(t: byte, q: seq<Frame>): seq<bytes> {
    if q == [] then [] else (if q[0].ftype == t then [q[0].payload] else []) + OfType(t, q[1..])
  }

  lemma {:induction false} EventsAppend(k: u32, q: seq<Frame>, r: seq<Frame>)
    ensures Events(k, q + r) == Events(k, q) + Events(k, r)
  {
    if q == [] {
      assert q + r == r;
    } else {
      hide EventOf;
      EventsAppend(k, q[1..], r);
      assert (q + r)[1..] == q[1..] + r;
      var head := if q[0].streamID == k && EventOf(q[0]).Some? then [EventOf(q[0]).value] else [];
      Assoc(head, Events(k, q[1..]), Events(k, r));
    }
  }

  lemma {:induction false} OfTypeAppend(t: byte, q: seq<Frame>, r: seq<Frame>)
    ensures OfType(t, q + r) == OfType(t, q) + OfType(t, r)
  {
    if q == [] {
      assert q + r == r;
    } else {
      OfTypeAppend(t, q[1..], r);
      assert (q + r)[1..] == q[1..] + r;
      Assoc(if q[0].ftype == t then [q[0].payload] else [], OfType(t, q[1..]), OfType(t, r));
    }
  }

  lemma One(f: Frame)
    ensures forall k :: Events(k, [f]) == if f.streamID == k && EventOf(f).Some? then [EventOf(f).value] else []
    ensures forall t :: OfType(t, [f]) == if f.ftype == t then [f.payload] else []
  {
  }

  lemma Nothing()
    ensures forall k :: Events(k, []) == []
    ensures forall t :: OfType(t, []) == []
  {
  }

  // ---------- The ledger: what each operation adds to what was sent and seen ----------

  function Sent(c: Conn, k: u32): seq<S.Event> {
    if k in c.objects then c.objects[k].log.sent else []
  }

  function Seen(c: Conn, k: u32): seq<S.Event> {
    if k in c.objects then c.objects[k].log.seen else []
  }

  /** From `c` to `c'` exactly the frames `out` were sent and `arrived` were dispatched. */
  ghost predicate Ledger(c: Conn, c': Conn, out: seq<Frame>, arrived: seq<Frame>) {
    && c'.isClient == c.isClient && c'.reading == c.reading
    && (forall k :: Sent(c', k) == Sent(c, k) + Events(k, out))
    && (forall k :: Seen(c', k) == Seen(c, k) + Events(k, arrived))
    && c'.log.pingsSent == c.log.pingsSent + OfType(TYPE_PING, out)
    && c'.log.pongsSent == c.log.pongsSent + OfType(TYPE_PONG, out)
    && c'.log.pingsSeen == c.log.pingsSeen + OfType(TYPE_PING, arrived)
    && c'.log.pongsSeen == c.log.pongsSeen + OfType(TYPE_PONG, arrived)
  }

  function If(ok: bool, f: Frame): seq<Frame> {
    if ok then [f] else []
  }

  lemma OpenLedger(c: Conn, ok: bool)
    requires c.nextID !in c.objects
    ensures Ledger(c, OpenStream(c, ok), If(ok, MakeFrame(TYPE_STREAM_OPEN, c.nextID, [])), [])
  {
  }

  lemma SendDataLedger(c: Conn, id: u32, chunk: bytes, ok: bool)
    requires id in c.objects
    ensures Ledger(c, SendData(c, id, chunk, ok), If(ok, MakeFrame(TYPE_DATA, id, chunk)), [])
  {
    hide Events, OfType;
    Nothing();
    One(MakeFrame(TYPE_DATA, id, chunk));
  }

  lemma CloseStreamLedger(c: Conn, id: u32, ok: bool)
    requires id in c.objects
    ensures Ledger(c, CloseStream(c, id, ok), If(ok, MakeFrame(TYPE_STREAM_CLOSE, id, [])), [])
  {
    hide Events, OfType, S.DeliverErr;
    Nothing();
    One(MakeFrame(TYPE_STREAM_CLOSE, id, []));
    EndKeepsLog(c.objects[id].(closed := true), S.ByOwner);
  }

  lemma EndKeepsLog(s: S.Stream, cause: S.Cause)
    ensures var t := S.DeliverErr(s, cause);
            t.log.sent == s.log.sent && t.log.seen == s.log.seen
  {
  }

  lemma PingLedger(c: Conn, cookie: bytes, ok: bool)
    ensures Ledger(c, SendPing(c, cookie, ok), If(ok, MakeFrame(TYPE_PING, 0, cookie)), [])
  {
  }

  lemma SilentLedger(c: Conn, pad: seq<Frame>)
    requires |pad| <= 1 && forall i :: 0 <= i < |pad| ==> pad[i].ftype == TYPE_PADDING
    ensures Ledger(c, c, pad, [])
  {
  }

  lemma ReadLedger(c: Conn, id: u32, n: nat)
    requires id in c.objects && S.OffsetOK(c.objects[id])
    ensures Ledger(c, ReadStream(c, id, n), [], [])
  {
  }

  lemma CloseLedger(c: Conn)
    ensures Ledger(c, Close(c), [], [])
  {
  }

  lemma EventLogged(c: Conn, f: Frame, ok: bool)
    requires EventOf(f).Some?
    requires f.ftype == TYPE_STREAM_OPEN <==> f.streamID !in c.objects
    ensures var c' := Dispatch(c, f, ok);
            && c'.log == c.log && c'.isClient == c.isClient && c'.reading == c.reading && Reply(f).None?
            && (forall k :: Sent(c', k) == Sent(c, k))
            && (forall k :: Seen(c', k) == Seen(c, k) + if k == f.streamID then [EventOf(f).value] else [])
  {
    if f.streamID in c.objects {
      S.ArriveKeeps(c.objects[f.streamID], EventOf(f).value, f.streamID in c.table);
    }
    hide S.Arrive;
  }

  /** An arriving event reaches the log of its stream if the stream exists, or is created by it. */
  lemma DispatchLedger(c: Conn, f: Frame, ok: bool)
    requires EventOf(f).Some? ==> (f.ftype == TYPE_STREAM_OPEN <==> f.streamID !in c.objects)
    ensures Ledger(c, Dispatch(c, f, ok), if ok && Reply(f).Some? then [Reply(f).value] else [], [f])
  {
    if EventOf(f).Some? {
      EventLogged(c, f, ok);
      hide Dispatch, Sent, Seen, Events, OfType;
      One(f);
      NoneOf(c);
    } else {
      ControlLedger(c, f, ok);
    }
  }

  lemma NoneOf(c: Conn)
    ensures Ledger(c, c, [], [])
  {
  }

  lemma ControlLedger(c: Conn, f: Frame, ok: bool)
    requires EventOf(f).None?
    ensures Ledger(c, Dispatch(c, f, ok), if ok && Reply(f).Some? then [Reply(f).value] else [], [f])
  {
    hide Sent, Seen, Events, OfType, Dispatch;
    ControlKeeps(c, f, ok);
    One(f);
    One(MakeFrame(TYPE_PONG, 0, f.payload));
    NoneOf(c);
  }

  lemma ControlKeeps(c: Conn, f: Frame, ok: bool)
    requires EventOf(f).None?
    ensures var c' := Dispatch(c, f, ok);
            && c'.isClient == c.isClient && c'.reading == c.reading
            && (forall k :: Sent(c', k) == Sent(c, k) && Seen(c', k) == Seen(c, k))
            && c'.log.pingsSent == c.log.pingsSent
            && c'.log.pongsSent == c.log.pongsSent + (if ok && f.ftype == TYPE_PING then [f.payload] else [])
            && c'.log.pingsSeen == c.log.pingsSeen + (if f.ftype == TYPE_PING then [f.payload] else [])
            && c'.log.pongsSeen == c.log.pongsSeen + (if f.ftype == TYPE_PONG then [f.payload] else [])
  {
  }
}
