/** One end of the tunnel as the program runs it: connections and streams that are updated in place.
    Each method is proved to be a step of the two-endpoint system in Network, so what holds of every
    run there holds of these objects. */
module Endpoints {
  import opened Bytes
  import opened Io
  import opened Codec
  import C = Coalesce
  import F = FrameCiphers
  import X = Crypto
  import L = Links
  import S = Streams
  import M = Mux
  import N = Network
  import opened FrameIO

  /** What the peer's end of the tunnel looks like, but for the bytes on the wires. */
  datatype Peer = Peer(
    conn: M.Conn,
    coal: C.Coal,
    send: X.CipherState,
    recv: X.CipherState,
    readBuf: bytes,
    closed: bool)

  /** The two-endpoint system, this end being `a`: its connection, what it sends, what it receives,
      and the peer's end. */
  function Assemble(c: M.Conn, outgoing: L.Link, rx: X.Rx, peer: Peer): N.Net {
    N.Net(c, peer.conn, Facing(outgoing, peer), L.Sealed(peer.coal, peer.send, rx))
  }

  function Facing(l: L.Link, peer: Peer): L.Link {
    match l
    case Sealed(_, _, rx) => l.(rx := X.Rx(peer.recv, peer.readBuf, rx.wire, peer.closed))
    case Bare(_, _, _) => l
  }

  // One act at a time.

  lemma OpenStep(c: M.Conn, l: L.Link, rx: X.Rx, peer: Peer, e: N.Env)
    ensures var r := L.SendFrame(l, M.MakeFrame(TYPE_STREAM_OPEN, c.nextID, []), e.draw, e.stopped);
            N.StepA(Assemble(c, l, rx, peer), N.OpenStream(e)) ==
            Assemble(M.OpenStream(c, r.error.None?), r.link, rx, peer)
  {
  }

  lemma SendStep(c: M.Conn, l: L.Link, rx: X.Rx, peer: Peer, id: u32, chunk: bytes, e: N.Env)
    requires id in c.objects && 1 <= |chunk| <= MAX_PAYLOAD
    ensures var r := L.SendFrame(l, M.MakeFrame(TYPE_DATA, id, chunk), e.draw, e.stopped);
            N.StepA(Assemble(c, l, rx, peer), N.WriteChunk(id, chunk, e)) ==
            Assemble(M.SendData(c, id, chunk, r.error.None?), r.link, rx, peer)
    ensures N.Put(Assemble(c, l, rx, peer), M.MakeFrame(TYPE_DATA, id, chunk), e).error ==
            L.SendFrame(l, M.MakeFrame(TYPE_DATA, id, chunk), e.draw, e.stopped).error
  {
  }

  lemma CloseStep(c: M.Conn, l: L.Link, rx: X.Rx, peer: Peer, id: u32, e: N.Env)
    requires id in c.objects
    ensures var r := L.SendFrame(l, M.MakeFrame(TYPE_STREAM_CLOSE, id, []), e.draw, e.stopped);
            var s := Assemble(c, l, rx, peer);
            N.StepA(s, N.CloseStream(id, e)) ==
            if c.objects[id].closed then s else Assemble(M.CloseStream(c, id, r.error.None?), r.link, rx, peer)
    ensures N.Put(Assemble(c, l, rx, peer), M.MakeFrame(TYPE_STREAM_CLOSE, id, []), e).error ==
            L.SendFrame(l, M.MakeFrame(TYPE_STREAM_CLOSE, id, []), e.draw, e.stopped).error
  {
  }

  lemma PingStep(c: M.Conn, l: L.Link, rx: X.Rx, peer: Peer, cookie: bytes, e: N.Env)
    requires |cookie| == 8
    ensures var r := L.SendFrame(l, M.MakeFrame(TYPE_PING, 0, cookie), e.draw, e.stopped);
            N.StepA(Assemble(c, l, rx, peer), N.Ping(cookie, e)) ==
            Assemble(M.SendPing(c, cookie, r.error.None?), r.link, rx, peer)
    ensures N.Put(Assemble(c, l, rx, peer), M.MakeFrame(TYPE_PING, 0, cookie), e).error ==
            L.SendFrame(l, M.MakeFrame(TYPE_PING, 0, cookie), e.draw, e.stopped).error
  {
  }

  lemma PadStep(c: M.Conn, l: L.Link, rx: X.Rx, peer: Peer, payload: bytes, e: N.Env)
    ensures var r := L.SendFrame(l, M.MakeFrame(TYPE_PADDING, 0, payload), e.draw, e.stopped);
            var s := Assemble(c, l, rx, peer);
            N.StepA(s, N.Pad(payload, e)) ==
            if 1 <= |payload| <= MAX_PAYLOAD then Assemble(c, r.link, rx, peer) else s
    ensures N.Put(Assemble(c, l, rx, peer), M.MakeFrame(TYPE_PADDING, 0, payload), e).error ==
            L.SendFrame(l, M.MakeFrame(TYPE_PADDING, 0, payload), e.draw, e.stopped).error
  {
  }

  lemma HandleStep(c: M.Conn, l: L.Link, rx: X.Rx, peer: Peer, f: Frame, e: N.Env)
    ensures var s := Assemble(c, l, rx, peer);
            N.Handle(s, f, e) ==
            match M.Reply(f)
            case None => Assemble(M.Dispatch(c, f, false), l, rx, peer)
            case Some(g) =>
              var r := L.SendFrame(l, g, e.draw, e.stopped);
              Assemble(M.Dispatch(c, f, r.error.None?), r.link, rx, peer)
  {
  }

  lemma ControlFrame(c: M.Conn, f: Frame)
    requires f.ftype != TYPE_DATA && f.ftype != TYPE_STREAM_OPEN && f.ftype != TYPE_STREAM_CLOSE
    ensures forall ok ::
              M.Dispatch(c, f, ok) ==
              if f.ftype == TYPE_PING then
                c.(log := c.log.(pingsSeen := c.log.pingsSeen + [f.payload],
                                 pongsSent := if ok then c.log.pongsSent + [f.payload] else c.log.pongsSent))
              else if f.ftype == TYPE_PONG then c.(log := c.log.(pongsSeen := c.log.pongsSeen + [f.payload]))
              else c
  {
  }

  lemma CloseStops(c: M.Conn)
    ensures M.Close(c.(reading := false)) == M.StopReading(c) && M.StopReading(c).done
  {
  }

  lemma NextStep(c: M.Conn, l: L.Link, rx: X.Rx, peer: Peer, e: N.Env)
    requires c.reading && (L.ReadFrame(rx).error == Some(EOF) ==> peer.coal.closed)
    ensures var r := L.ReadFrame(rx);
            N.StepA(Assemble(c, l, rx, peer), N.DispatchOne(e)) ==
            match r.frame
            case Some(f) => N.Handle(Assemble(c, l, r.rx, peer), f, e)
            case None => Assemble(M.StopReading(c), l, r.rx, peer)
  {
    hide N.Handle, M.StopReading, L.ReadFrame;
    assert L.ReadFrame(rx).frame.Some? <==> L.ReadFrame(rx).error.None?;
  }

  lemma ReadStep(c: M.Conn, l: L.Link, rx: X.Rx, peer: Peer, id: u32, n: nat)
    requires id in c.objects && S.OffsetOK(c.objects[id])
    ensures N.StepA(Assemble(c, l, rx, peer), N.ReadStream(id, n)) == Assemble(M.ReadStream(c, id, n), l, rx, peer)
  {
  }

  // ---------- A whole Write ----------

  datatype Written = Written(s: N.Net, n: nat, error: Option<Error>)

  /** Writes the messages `cs` one after the other until one is refused, and counts the bytes. */
  function WriteAll(s: N.Net, id: u32, cs: seq<bytes>, env: nat -> N.Env, k: nat): Written
    decreases |cs|
  {
    if cs == [] then Written(s, 0, None)
    else
      var error := N.Put(s, M.MakeFrame(TYPE_DATA, id, cs[0]), env(k)).error;
      var t := N.StepA(s, N.WriteChunk(id, cs[0], env(k)));
      if error.Some? then Written(t, 0, error)
      else
        var w := WriteAll(t, id, cs[1..], env, k + 1);
        w.(n := |cs[0]| + w.n)
  }

  lemma ArriveKeeps(s: S.Stream, e: S.Event, registered: bool)
    requires S.OffsetOK(s)
    ensures S.OffsetOK(S.Arrive(s, e, registered)) && S.Arrive(s, e, registered).id == s.id
  {
  }

  function Datas(cs: seq<bytes>): seq<S.Event> {
    seq(|cs|, i requires 0 <= i < |cs| => S.Data(cs[i]))
  }

  predicate Messages(cs: seq<bytes>) {
    forall i :: 0 <= i < |cs| ==> 1 <= |cs[i]| <= MAX_PAYLOAD
  }

  /** A Write is a run of the system. It sends its first `m` messages, in order and all of them if it
      reports no error, and the count it returns is the bytes of exactly those. */
  lemma {:induction false} WriteAllIsRun(s: N.Net, id: u32, cs: seq<bytes>, env: nat -> N.Env, k: nat)
    returns (xs: seq<N.Action>, m: nat)
    requires id in s.a.objects && Messages(cs)
    ensures var w := WriteAll(s, id, cs, env, k);
            && w.s == N.Run(s, xs) && id in w.s.a.objects
            && m <= |cs| && (w.error.None? <==> m == |cs|)
            && w.n == |Concat(cs[..m])|
            && M.Sent(w.s.a, id) == M.Sent(s.a, id) + Datas(cs[..m])
    decreases |cs|
  {
    hide N.Put, L.SendFrame;
    if cs == [] {
      xs, m := [], 0;
      assert cs[..0] == [];
      assert M.Sent(s.a, id) + Datas([]) == M.Sent(s.a, id);
    } else {
      var x := N.Action(true, N.WriteChunk(id, cs[0], env(k)));
      var t := N.Step(s, x);
      ChunkSent(s, id, cs[0], env(k));
      hide N.StepA;
      if N.Put(s, M.MakeFrame(TYPE_DATA, id, cs[0]), env(k)).error.Some? {
        xs, m := [x], 0;
        assert [x][1..] == [] && N.Run(t, []) == t;
        assert cs[..0] == [];
        assert M.Sent(s.a, id) + Datas([]) == M.Sent(s.a, id);
      } else {
        var ys, j := WriteAllIsRun(t, id, cs[1..], env, k + 1);
        xs, m := [x] + ys, j + 1;
        assert xs[1..] == ys;
        assert cs[..m] == [cs[0]] + cs[1..][..j];
        assert cs[..m][1..] == cs[1..][..j];
        assert Datas(cs[..m]) == [S.Data(cs[0])] + Datas(cs[1..][..j]);
        var sent := M.Sent(s.a, id);
        assert (sent + [S.Data(cs[0])]) + Datas(cs[1..][..j]) == sent + Datas(cs[..m]);
      }
    }
  }

  /** A Write reports its whole length exactly when it reports no error, and then its bytes were
      sent, cut into full frames and one last frame. */
  lemma WriteCounts(s: N.Net, id: u32, p: bytes, env: nat -> N.Env)
    requires id in s.a.objects
    ensures var w := WriteAll(s, id, S.Chunks(p), env, 0);
            && w.n <= |p| && (w.error.None? <==> w.n == |p|)
            && (w.error.None? ==> M.Sent(w.s.a, id) == M.Sent(s.a, id) + Datas(S.Chunks(p)))
  {
    hide WriteAll, N.Run, N.StepA, N.Put, M.Sent, Datas, Messages, S.Chunks, Concat;
    var cs := S.Chunks(p);
    S.ChunksConcat(p);
    assert Messages(cs) by { ChunksAreMessages(p); }
    var _, m := WriteAllIsRun(s, id, cs, env, 0);
    SomeOfAll(cs, m);
    if m == |cs| {
      assert cs[..m] == cs;
    }
  }

  lemma ChunksAreMessages(p: bytes)
    ensures Messages(S.Chunks(p))
  {
    S.ChunksConcat(p);
  }

  lemma SomeOfAll(cs: seq<bytes>, m: nat)
    requires Messages(cs) && m <= |cs|
    ensures |Concat(cs[..m])| <= |Concat(cs)| && (|Concat(cs[..m])| == |Concat(cs)| <==> m == |cs|)
  {
    assert cs == cs[..m] + cs[m..];
    ConcatAppend(cs[..m], cs[m..]);
    if m < |cs| {
      assert cs[m..][0] == cs[m];
      assert |Concat(cs[m..])| >= |cs[m]|;
    } else {
      assert cs[..m] == cs;
    }
  }

  lemma ChunkSent(s: N.Net, id: u32, chunk: bytes, e: N.Env)
    requires id in s.a.objects && 1 <= |chunk| <= MAX_PAYLOAD
    ensures var ok := N.Put(s, M.MakeFrame(TYPE_DATA, id, chunk), e).error.None?;
            var t := N.StepA(s, N.WriteChunk(id, chunk, e));
            && id in t.a.objects
            && M.Sent(t.a, id) == M.Sent(s.a, id) + if ok then [S.Data(chunk)] else []
  {
  }

  // ---------- Rounds of the read loop ----------

  function Rounds(env: nat -> N.Env, n: nat): seq<N.Action> {
    seq(n, i requires 0 <= i => N.Action(true, N.DispatchOne(env(i))))
  }

  lemma RunNothing(s: N.Net, env: nat -> N.Env)
    ensures N.Run(s, Rounds(env, 0)) == s
  {
  }

  lemma RunRound(s: N.Net, env: nat -> N.Env, k: nat)
    ensures N.Run(s, Rounds(env, k + 1)) == N.StepA(N.Run(s, Rounds(env, k)), N.DispatchOne(env(k)))
  {
    hide N.StepA;
    assert Rounds(env, k + 1) == Rounds(env, k) + [N.Action(true, N.DispatchOne(env(k)))];
    N.RunSnoc(s, Rounds(env, k), N.Action(true, N.DispatchOne(env(k))));
  }

  lemma FrameConsumes(rx: X.Rx)
    requires L.ReadFrame(rx).frame.Some?
    ensures var rx' := L.ReadFrame(rx).rx;
            |rx'.readBuf| + |rx'.wire| < |rx.readBuf| + |rx.wire|
  {
    var h := X.ReadFull(rx, HEADER_SIZE);
    FillConsumes(rx, HEADER_SIZE);
    FillConsumes(h.rx, GetU16(h.got[6..8]));
  }

  lemma {:induction false} FillConsumes(rx: X.Rx, n: nat)
    ensures var r := X.ReadFull(rx, n);
            r.error.None? ==>
              |r.rx.readBuf| + |r.rx.wire| <= |rx.readBuf| + |rx.wire| - (if n > 0 then 1 else 0)
    decreases |rx.readBuf| + |rx.wire|
  {
    hide X.Read;
    if n > 0 && X.Read(rx, n).error.None? {
      FillConsumes(X.Read(rx, n).rx, n - |X.Read(rx, n).got|);
    }
  }

  class Stream {
    const id: u32
    const conn: Conn
    var readMsgs: seq<bytes>
    var readOff: nat
    var readErr: Option<Error>
    var closed: bool
    ghost var log: S.Log

    constructor (id: u32, conn: Conn)
      ensures this.id == id && this.conn == conn && View() == S.Fresh(id)
    {
      this.id, this.conn := id, conn;
      readMsgs, readOff, readErr, closed := [], 0, None, false;
      log := S.Fresh(id).log;
    }

    ghost function View(): S.Stream
      reads this
    {
      S.Stream(id, readMsgs, readOff, readErr, closed, log)
    }

    /** Whoever holds the stream can use it, whether or not it is still in the connection's table. */
    ghost predicate Held()
      reads this, conn, conn.objects.Values, conn.enc.w, conn.enc.w.inner
    {
      conn.Valid() && id in conn.objects && conn.objects[id] == this
    }

    lemma WhenHeld()
      requires Held()
      ensures conn.Wired() && S.OffsetOK(View())
      ensures id in conn.objects && conn.objects[id] == this
      ensures id in conn.View().objects && conn.View().objects[id] == View()
      ensures forall k :: k in conn.objects && k != id ==> conn.objects[k] != this
    {
    }

    method Read(p: array<byte>, ghost peer: Peer) returns (r: S.ReadResult)
      requires Held()
      modifies this, p
      ensures Held()
      ensures r == S.ReadOutcome(old(View()), p.Length)
      ensures var got := if r.Read? then r.got else [];
              p[..] == got + old(p[|got|..])
      ensures conn.World(peer) == N.StepA(old(conn.World(peer)), N.ReadStream(id, p.Length))
    {
      M.ReadKeeps(View(), p.Length);
      hide Conn.Objects, Conn.Valid, S.AfterRead, S.ReadOutcome, N.StepA, Assemble;
      r := Take(p);
      conn.StreamMoved(this);
      ReadStep(old(conn.View()), conn.enc.Outgoing(), conn.dec.r.Rx(), peer, id, p.Length);
    }

    /** Sends one chunk of a Write as one DATA frame. */
    method SendChunk(chunk: bytes, e: N.Env, ghost peer: Peer) returns (error: Option<Error>)
      requires Held() && 1 <= |chunk| <= MAX_PAYLOAD
      modifies this`log, conn.enc.w, conn.enc.w.inner.session`send, conn.enc.w.inner.outbound
      ensures Held()
      ensures error == N.Put(old(conn.World(peer)), M.MakeFrame(TYPE_DATA, id, chunk), e).error
      ensures conn.World(peer) == N.StepA(old(conn.World(peer)), N.WriteChunk(id, chunk, e))
    {
      hide Conn.Objects, Conn.Valid, Encoder.Outgoing, L.SendFrame, N.StepA, M.MakeFrame;
      WhenHeld();
      SendStep(conn.View(), conn.enc.Outgoing(), conn.dec.r.Rx(), peer, id, chunk, e);
      error := Send(M.MakeFrame(TYPE_DATA, id, chunk), S.Data(chunk), e);
      conn.StreamMoved(this);
    }

    /** `env(k)` are the outcomes of the k-th frame's random draw and timer. */
    method Write(p: bytes, env: nat -> N.Env, ghost peer: Peer) returns (n: nat, error: Option<Error>)
      requires Held()
      modifies this`log, conn.enc.w, conn.enc.w.inner.session`send, conn.enc.w.inner.outbound
      ensures Held()
      ensures old(closed) ==> n == 0 && error == Some(StreamClosed) && conn.World(peer) == old(conn.World(peer))
      ensures !old(closed) ==>
                Written(conn.World(peer), n, error) == WriteAll(old(conn.World(peer)), id, S.Chunks(p), env, 0)
    {
      hide Held, Conn.World, N.StepA, N.Put;
      if closed {
        return 0, Some(StreamClosed);
      }
      ghost var whole := WriteAll(conn.World(peer), id, S.Chunks(p), env, 0);
      var left, k := p, 0;
      n := 0;
      while |left| > 0
        invariant Held()
        invariant var w := WriteAll(conn.World(peer), id, S.Chunks(left), env, k);
                  whole == w.(n := n + w.n)
        decreases |left|
      {
        var chunk := left;
        if |chunk| > MAX_PAYLOAD {
          chunk := chunk[..MAX_PAYLOAD];
        }
        assert S.Chunks(left) == [chunk] + S.Chunks(left[|chunk|..]);
        error := SendChunk(chunk, env(k), peer);
        if error.Some? {
          return;
        }
        n, k := n + |chunk|, k + 1;
        left := left[|chunk|..];
      }
      error := None;
    }

    method Close(e: N.Env, ghost peer: Peer) returns (error: Option<Error>)
      requires Held()
      modifies this, conn.enc.w, conn.enc.w.inner.session`send, conn.enc.w.inner.outbound
      ensures Held()
      ensures conn.World(peer) == N.StepA(old(conn.World(peer)), N.CloseStream(id, e))
      ensures old(closed) ==> error.None?
      ensures !old(closed) ==> error == N.Put(old(conn.World(peer)), M.MakeFrame(TYPE_STREAM_CLOSE, id, []), e).error
    {
      hide Conn.Objects, Conn.Valid, Encoder.Outgoing, L.SendFrame, N.StepA, M.MakeFrame;
      WhenHeld();
      CloseStep(conn.View(), conn.enc.Outgoing(), conn.dec.r.Rx(), peer, id, e);
      if closed {
        return None;
      }
      MarkClosed();
      error := Send(M.MakeFrame(TYPE_STREAM_CLOSE, id, []), S.Closed, e);
      conn.StreamMoved(this);
    }

    /** Writes a frame of this stream, which the log knows as `event`. */
    method Send(f: Frame, ghost event: S.Event, e: N.Env) returns (error: Option<Error>)
      requires conn.Wired()
      modifies this`log, conn.enc.w, conn.enc.w.inner.session`send, conn.enc.w.inner.outbound
      ensures conn.Wired() && View() == M.Logged(old(View()), event, error.None?)
      ensures L.Shipped(conn.enc.Outgoing(), error) == L.SendFrame(old(conn.enc.Outgoing()), f, e.draw, e.stopped)
      ensures conn.dec.r.Rx() == old(conn.dec.r.Rx())
    {
      hide Encoder.Outgoing, L.SendFrame;
      error := conn.enc.WriteFrame(f, e.draw, e.stopped);
      if error.None? {
        log := log.(sent := log.sent + [event]);
      }
    }

    /** No more writes, and the read side ends. */
    method MarkClosed()
      modifies this`closed, this`readErr, this`log
      ensures View() == S.DeliverErr(old(View()).(closed := true), S.ByOwner)
    {
      closed := true;
      DeliverErr(EOF, S.ByOwner);
    }

    /** Reads into `p` from the first queued message only. */
    method Take(p: array<byte>) returns (r: S.ReadResult)
      requires S.OffsetOK(View())
      modifies this`readMsgs, this`readOff, this`log, p
      ensures r == S.ReadOutcome(old(View()), p.Length) && View() == S.AfterRead(old(View()), p.Length)
      ensures var got := if r.Read? then r.got else [];
              p[..] == got + old(p[|got|..])
    {
      if |readMsgs| == 0 {
        return match readErr case Some(e) => S.Failed(e) case None => S.Blocked;
      }
      var msg := readMsgs[0];
      var n := Min(p.Length, |msg| - readOff);
      forall i | 0 <= i < n {
        p[i] := msg[readOff + i];
      }
      r := S.Read(msg[readOff..readOff + n]);
      assert p[..n] == r.got;
      assert r == S.ReadOutcome(View(), p.Length) by {
        assert msg[readOff..][..n] == msg[readOff..readOff + n];
      }
      log := S.AfterRead(View(), p.Length).log;
      readOff := readOff + n;
      if readOff >= |msg| {
        readMsgs, readOff := readMsgs[1..], 0;
      }
    }

    /** An event for this stream arrives; what it does follows. */
    ghost method Note(e: S.Event)
      modifies this`log
      ensures View() == old(View()).(log := old(log).(seen := old(log).seen + [e]))
    {
      log := log.(seen := log.seen + [e]);
    }

    /** The data is copied, so the queue does not depend on the decoder's buffer. */
    method DeliverData(data: bytes)
      modifies this`readMsgs, this`log
      ensures View() == S.DeliverData(old(View()), data)
    {
      if readErr.Some? {
        return;
      }
      readMsgs := readMsgs + [data];
      log := log.(got := log.got + [data]);
    }

    method DeliverErr(error: Error, ghost cause: S.Cause)
      requires error == EOF
      modifies this`readErr, this`log
      ensures View() == S.DeliverErr(old(View()), cause)
    {
      if readErr.None? {
        readErr := Some(error);
        log := log.(cause := Some(cause));
      }
    }
  }

  class Conn {
    const enc: Encoder
    const dec: Decoder
    const isClient: bool
    var nextID: u32
    var streams: map<u32, Stream>
    var done: bool
    var closeErr: Option<Error>

    // Whether the goroutine of the read loop is still running.
    var reading: bool

    // Every stream ever created, the latest under each id; and the history of the connection.
    ghost var objects: map<u32, Stream>
    ghost var log: M.ConnLog

    ghost predicate Wired()
      reads enc.w, enc.w.inner
    {
      enc.w.Valid() && dec.r == enc.w.inner && dec.header.Length == HEADER_SIZE
    }

    ghost predicate Valid()
      reads this, objects.Values, enc.w, enc.w.inner
    {
      && Wired()
      && (forall k :: k in streams ==> k in objects && streams[k] == objects[k])
      && (forall k :: k in objects ==>
            objects[k].id == k && objects[k].conn == this && S.OffsetOK(objects[k].View()))
    }

    lemma WhenValid()
      requires Valid()
      ensures Wired() && View().reading == reading
    {
    }

    lemma Tabled()
      requires Valid()
      ensures Wired()
      ensures forall k :: k in streams ==> k in objects && streams[k] == objects[k]
      ensures forall k :: k in objects ==> objects[k].id == k
      ensures done ==> M.Close(View()) == View()
    {
    }

    /** What is known of the stream `k`. */
    lemma Lookup(k: u32)
      requires Valid()
      ensures Wired()
      ensures k in streams ==> k in objects && streams[k] == objects[k]
      ensures k in View().objects <==> k in objects
      ensures k in View().table <==> k in streams
      ensures k in objects ==>
                objects[k].id == k && objects[k].conn == this && S.OffsetOK(objects[k].View()) &&
                View().objects[k] == objects[k].View()
      ensures forall i :: i in objects && i != k && k in objects ==> objects[i] != objects[k]
    {
    }

    ghost function View(): M.Conn
      reads this, objects.Values
    {
      M.Conn(isClient, nextID, Objects(), streams.Keys, done, reading, log)
    }

    ghost function Objects(): map<u32, S.Stream>
      reads this, objects.Values
    {
      map k | k in objects :: objects[k].View()
    }

    ghost function World(peer: Peer): N.Net
      reads this, objects.Values, enc.w, enc.w.inner.session, enc.w.inner.outbound
      reads dec.r, dec.r.session, dec.r.inbound
    {
      Assemble(View(), enc.Outgoing(), dec.r.Rx(), peer)
    }

    /** Streams are only ever added to the objects of this connection. */
    twostate predicate Grown()
      reads this
    {
      forall k :: k in objects ==> fresh(objects[k]) || (k in old(objects) && objects[k] == old(objects)[k])
    }

    twostate lemma SameGrown()
      requires objects == old(objects)
      ensures Grown()
    {
    }

    /** Streams that are new are in the table. */
    twostate predicate InTable()
      reads this
    {
      objects == old(objects) + streams
    }

    twostate lemma NoneNew()
      requires Valid() && objects == old(objects)
      ensures InTable() && Grown()
    {
      hide Conn.Objects, Stream.View, S.OffsetOK;
    }

    twostate lemma OneNew(id: u32, new s: Stream)
      requires Valid() && objects == old(objects)[id := s] && id in streams
      ensures InTable() && (fresh(s) ==> Grown())
    {
      hide Conn.Objects, Stream.View, S.OffsetOK;
    }

    /** Nothing has changed but the stream under `id`, which may be a new one. */
    twostate predicate OnlyStream(id: u32, new s: Stream)
      reads this, objects.Values
    {
      && objects == old(objects)[id := s]
      && (forall k :: k in old(objects) && k != id ==> objects[k].View() == old(objects[k].View()))
    }

    twostate lemma StreamChanged(id: u32, new s: Stream)
      requires old(Valid()) && Wired() && OnlyStream(id, s)
      requires s.id == id && s.conn == this && S.OffsetOK(s.View())
      requires forall k :: k in streams ==>
        if k == id then streams[k] == s else k in old(streams) && streams[k] == old(streams)[k]
      ensures Valid() && Objects() == old(Objects())[id := s.View()]
      ensures id in old(objects) ==> old(Objects())[id] == old(objects[id].View())
    {
      hide Conn.Objects, Conn.Valid;
      StaysValid(id, s);
      ViewsChanged(id, s);
    }

    twostate lemma StaysValid(id: u32, new s: Stream)
      requires old(Valid()) && Wired() && OnlyStream(id, s)
      requires s.id == id && s.conn == this && S.OffsetOK(s.View())
      requires forall k :: k in streams ==>
        if k == id then streams[k] == s else k in old(streams) && streams[k] == old(streams)[k]
      ensures Valid()
    {
      hide Stream.View, S.OffsetOK;
      forall k | k in objects
        ensures objects[k].id == k && objects[k].conn == this && S.OffsetOK(objects[k].View())
      {
        if k != id {
          assert k in old(objects) && objects[k].View() == old(objects[k].View());
        }
      }
    }

    twostate lemma ViewsChanged(id: u32, new s: Stream)
      requires OnlyStream(id, s)
      ensures Objects() == old(Objects())[id := s.View()]
      ensures id in old(objects) ==> old(Objects())[id] == old(objects[id].View())
    {
    }

    /** A stream that is already there has changed, and nothing else. */
    twostate lemma StreamMoved(s: Stream)
      requires old(Valid()) && Wired() && s.id in objects && objects[s.id] == s && objects == old(objects)
      requires forall k :: k in objects && k != s.id ==> objects[k].View() == old(objects[k].View())
      requires S.OffsetOK(s.View())
      requires streams == old(streams) && nextID == old(nextID)
      requires done == old(done) && reading == old(reading) && log == old(log)
      ensures Valid() && old(View()).objects[s.id] == old(s.View())
      ensures View() == old(View()).(objects := old(View()).objects[s.id := s.View()])
    {
      assert objects[s.id := s] == objects;
      StreamChanged(s.id, s);
      hide Conn.Objects;
    }

    twostate lemma StreamsUnchanged()
      requires old(Valid()) && Wired() && objects == old(objects)
      requires forall k :: k in objects ==> objects[k].View() == old(objects[k].View())
      requires forall k :: k in streams ==> k in old(streams) && streams[k] == old(streams)[k]
      ensures Valid() && Objects() == old(Objects())
    {
    }

    twostate lemma AllEnded()
      requires old(Valid()) && Wired() && objects == old(objects) && streams == old(streams)
      requires nextID == old(nextID) && !old(done) && done && reading == old(reading) && log == old(log)
      requires forall k :: k in objects ==>
        objects[k].View() == if k in streams then S.DeliverErr(old(objects[k].View()), S.ByConn)
                             else old(objects[k].View())
      ensures Valid() && View() == M.Close(old(View()))
    {
      assert Valid() by {
        forall k | k in objects
          ensures objects[k].id == k && S.OffsetOK(objects[k].View())
        {
          assert S.OffsetOK(old(objects[k].View())) && old(objects[k].View()).id == k;
        }
      }
      hide Conn.Valid, S.DeliverErr, S.OffsetOK;
    }

    twostate lemma Opened(id: u32, new t: Stream)
      requires old(Valid()) && Wired() && OnlyStream(id, t) && id == old(nextID)
      requires t.View() == S.Fresh(id).(log := S.Fresh(id).log.(sent := [S.Opened])) && t.conn == this
      requires streams == old(streams)[id := t] && done == old(done) && reading == old(reading)
      requires nextID == (id + 2) % 0x1_0000_0000 && log == old(log).(opens := old(log).opens + 1)
      ensures Valid() && View() == M.OpenStream(old(View()), true)
    {
      StreamChanged(id, t);
      hide Conn.Objects;
      assert streams.Keys == old(streams).Keys + {id};
    }

    twostate lemma NotOpened(id: u32, new t: Stream)
      requires old(Valid()) && Wired() && objects == old(objects) && id == old(nextID)
      requires forall k :: k in objects ==> objects[k].View() == old(objects[k].View())
      requires streams == old(streams)[id := t] - {id} && done == old(done) && reading == old(reading)
      requires nextID == (id + 2) % 0x1_0000_0000 && log == old(log).(opens := old(log).opens + 1)
      ensures Valid() && View() == M.OpenStream(old(View()), false)
    {
      StreamsUnchanged();
      hide Conn.Objects;
    }

    /** Connection and receiving half are as they were, but for the closing of this end. */
    twostate predicate ReceiverKept(closing: bool)
      reads this, objects.Values, dec.r, dec.r.session, dec.r.inbound
    {
      && View() == old(View())
      && dec.r.Rx() == if closing then old(dec.r.Rx()).(closed := true) else old(dec.r.Rx())
    }

    /** The coalescer's own activity, too, is a step of the system: a timer that calls back, */
    twostate lemma TimerActs(new peer: Peer, new t: nat, new draw: nat)
      requires t in old(enc.w.armed) && enc.w.Performed(C.TimerFlush(old(enc.w.View()), t, draw))
      requires ReceiverKept(false)
      ensures World(peer) == N.StepA(old(World(peer)), N.FireTimer(t, draw))
    {
      hide Conn.View, F.FrameCipher.Rx, C.TimerFlush;
    }

    /** a tick of the cover loop, */
    twostate lemma CoverActs(new peer: Peer, new e: N.Env)
      requires enc.w.Performed(C.CoverTick(old(enc.w.View()), e.draw, e.stopped))
      requires ReceiverKept(false)
      ensures World(peer) == N.StepA(old(World(peer)), N.TickCover(e))
    {
      hide Conn.View, F.FrameCipher.Rx, C.CoverTick;
    }

    /** and its Close. */
    twostate lemma ShutActs(new peer: Peer, stopped: bool)
      requires enc.w.Performed(C.Close(old(enc.w.View()), stopped))
      requires ReceiverKept(true)
      ensures World(peer) == N.StepA(old(World(peer)), N.CloseTunnel(stopped))
    {
      hide Conn.View, F.FrameCipher.Rx, C.Close;
    }

    constructor (enc: Encoder, dec: Decoder, isClient: bool)
      requires enc.w.Valid() && dec.r == enc.w.inner && dec.header.Length == HEADER_SIZE
      ensures Valid() && this.enc == enc && this.dec == dec && View() == M.New(isClient)
    {
      this.enc, this.dec, this.isClient := enc, dec, isClient;
      nextID := if isClient then 1 else 2;
      streams, done, closeErr := map[], false, None;
      objects, reading, log := map[], true, M.New(isClient).log;
    }

    /** Creates the next local stream. */
    method Register() returns (t: Stream)
      requires Valid()
      modifies this
      ensures Valid() && t.Held() && View() == M.OpenStream(old(View()), true)
      ensures fresh(t) && t.id == old(nextID) && t.conn == this
      ensures nextID == (t.id + 2) % 0x1_0000_0000 && log == old(log).(opens := old(log).opens + 1)
      ensures streams == old(streams)[t.id := t] && objects == old(objects)[t.id := t]
      ensures done == old(done) && reading == old(reading)
    {
      hide Conn.Objects, Conn.Valid, M.OpenStream;
      WhenValid();
      var id := nextID;
      nextID := (nextID + 2) % 0x1_0000_0000;
      log := log.(opens := log.opens + 1);
      t := new Stream(id, this);
      streams := streams[id := t];
      objects := objects[id := t];
      t.log := t.log.(sent := [S.Opened]);
      assert t.View() == S.Fresh(id).(log := S.Fresh(id).log.(sent := [S.Opened]));
      Opened(id, t);
    }

    /** Hands a frame to the encoder, which changes nothing but the sending half. */
    method Send(f: Frame, e: N.Env) returns (error: Option<Error>)
      requires Valid()
      modifies enc.w, enc.w.inner.session`send, enc.w.inner.outbound
      ensures Valid() && Wired() && View() == old(View()) && dec.r.Rx() == old(dec.r.Rx())
      ensures L.Shipped(enc.Outgoing(), error) == L.SendFrame(old(enc.Outgoing()), f, e.draw, e.stopped)
    {
      hide Conn.Objects, Conn.Valid, Stream.View, Encoder.Outgoing, L.SendFrame;
      WhenValid();
      error := enc.WriteFrame(f, e.draw, e.stopped);
      StreamsUnchanged();
    }

    /** Creates the next local stream and sends its STREAM_OPEN. */
    method Announce(e: N.Env) returns (t: Stream, error: Option<Error>)
      requires Valid()
      modifies this, enc.w, enc.w.inner.session`send, enc.w.inner.outbound
      ensures Valid() && t.Held() && View() == M.OpenStream(old(View()), true)
      ensures fresh(t) && t.id == old(nextID) && t.conn == this
      ensures nextID == (t.id + 2) % 0x1_0000_0000 && log == old(log).(opens := old(log).opens + 1)
      ensures streams == old(streams)[t.id := t] && objects == old(objects)[t.id := t]
      ensures done == old(done) && reading == old(reading)
      ensures Wired() && dec.r.Rx() == old(dec.r.Rx())
      ensures L.Shipped(enc.Outgoing(), error) ==
              L.SendFrame(old(enc.Outgoing()), M.MakeFrame(TYPE_STREAM_OPEN, t.id, []), e.draw, e.stopped)
    {
      hide Conn.Objects, Conn.Valid, Conn.View, Stream.View, Encoder.Outgoing, L.SendFrame, M.OpenStream, M.MakeFrame;
      WhenValid();
      t := Register();
      error := Send(M.MakeFrame(TYPE_STREAM_OPEN, t.id, []), e);
    }

    method OpenStream(e: N.Env, ghost peer: Peer) returns (s: Option<Stream>, error: Option<Error>)
      requires Valid()
      modifies this, enc.w, enc.w.inner.session`send, enc.w.inner.outbound
      ensures Valid() && Grown() && InTable()
      ensures World(peer) == N.StepA(old(World(peer)), N.OpenStream(e))
      ensures s.Some? <==> error.None?
      ensures s.Some? ==> fresh(s.value) && s.value.id == old(nextID)
      ensures s.Some? ==> s.value.conn == this && s.value.Held()
    {
      hide Conn.Objects, Conn.Valid, Conn.Grown, Conn.InTable, Encoder.Outgoing;
      hide L.SendFrame, N.StepA, Assemble, M.OpenStream;
      OpenStep(View(), enc.Outgoing(), dec.r.Rx(), peer, e);
      var id := nextID;
      var t, failure := Announce(e);
      hide M.MakeFrame, Stream.Held;
      if failure.Some? {
        streams := streams - {id};
        objects := old(objects);
        NotOpened(id, t);
        NoneNew();
        return None, Some(OpenFailed(failure.value));
      }
      OneNew(id, t);
      return Some(t), None;
    }

    /** `cookie` is what the random source delivered. */
    method SendPing(cookie: bytes, e: N.Env, ghost peer: Peer) returns (error: Option<Error>)
      requires Valid() && |cookie| == 8
      modifies this`log, enc.w, enc.w.inner.session`send, enc.w.inner.outbound
      ensures Valid()
      ensures World(peer) == N.StepA(old(World(peer)), N.Ping(cookie, e))
      ensures error == N.Put(old(World(peer)), M.MakeFrame(TYPE_PING, 0, cookie), e).error
    {
      hide Conn.Objects, Conn.Valid, Encoder.Outgoing, L.SendFrame, N.StepA, M.MakeFrame;
      WhenValid();
      PingStep(View(), enc.Outgoing(), dec.r.Rx(), peer, cookie, e);
      error := Send(M.MakeFrame(TYPE_PING, 0, cookie), e);
      if error.None? {
        log := log.(pingsSent := log.pingsSent + [cookie]);
      }
      StreamsUnchanged();
    }

    /** Exactly the sizes 1 to 65535 are sent; `random` is what the random source delivered. */
    method SendPadding(n: int, random: bytes, e: N.Env, ghost peer: Peer) returns (error: Option<Error>)
      requires Valid() && |random| == if n > 0 then n else 0
      modifies enc.w, enc.w.inner.session`send, enc.w.inner.outbound
      ensures Valid()
      ensures World(peer) == N.StepA(old(World(peer)), N.Pad(random, e))
      ensures if 1 <= n <= MAX_PAYLOAD
              then error == N.Put(old(World(peer)), M.MakeFrame(TYPE_PADDING, 0, random), e).error
              else error == Some(PaddingOutOfRange) && World(peer) == old(World(peer))
    {
      hide Conn.Objects, Conn.Valid, Encoder.Outgoing, L.SendFrame, N.StepA, M.MakeFrame;
      WhenValid();
      PadStep(View(), enc.Outgoing(), dec.r.Rx(), peer, random, e);
      if n <= 0 || n > MAX_PAYLOAD {
        return Some(PaddingOutOfRange);
      }
      error := Send(M.MakeFrame(TYPE_PADDING, 0, random), e);
    }

    /** Ends every stream in the table, once. */
    method Close()
      requires Valid()
      modifies this`done, objects.Values
      ensures Valid() && View() == M.Close(old(View()))
    {
      hide Conn.Objects, Conn.Valid, Conn.View, Stream.View, M.Close, S.DeliverErr;
      Tabled();
      if done {
        return;
      }
      done := true;
      var todo := streams.Keys;
      while todo != {}
        invariant done && todo <= streams.Keys
        invariant forall k :: k in objects ==>
          objects[k].View() == if k in streams && k !in todo then S.DeliverErr(old(objects[k].View()), S.ByConn)
                               else old(objects[k].View())
      {
        var k :| k in todo;
        streams[k].DeliverErr(EOF, S.ByConn);
        todo := todo - {k};
      }
      AllEnded();
    }

    method DispatchData(f: Frame)
      requires Valid() && f.ftype == TYPE_DATA
      modifies objects.Values
      ensures Valid() && View() == M.Dispatch(old(View()), f, false) && InTable()
    {
      hide Conn.Objects, Conn.Valid;
      ghost var id := f.streamID;
      Lookup(id);
      if id in objects {
        ArriveKeeps(objects[id].View(), S.Data(f.payload), id in streams);
        objects[id].Note(S.Data(f.payload));
      }
      if f.streamID in streams {
        streams[f.streamID].DeliverData(f.payload);
      }
      if id in objects {
        StreamMoved(objects[id]);
      } else {
        StreamsUnchanged();
      }
      NoneNew();
    }

    method DispatchOpen(f: Frame)
      requires Valid() && f.ftype == TYPE_STREAM_OPEN
      modifies this`streams, this`objects
      ensures Valid() && View() == M.Dispatch(old(View()), f, false) && Grown() && InTable()
    {
      hide Conn.Objects, Conn.Valid, Conn.Grown, Conn.InTable;
      Tabled();
      var s := new Stream(f.streamID, this);
      streams := streams[f.streamID := s];
      objects := objects[f.streamID := s];
      s.Note(S.Opened);
      StreamChanged(f.streamID, s);
      assert streams.Keys == old(streams).Keys + {f.streamID};
      assert s.log.seen == [S.Opened];
      OneNew(f.streamID, s);
    }

    method DispatchClose(f: Frame)
      requires Valid() && f.ftype == TYPE_STREAM_CLOSE
      modifies this`streams, objects.Values
      ensures Valid() && View() == M.Dispatch(old(View()), f, false) && InTable()
    {
      hide Conn.Objects, Conn.Valid;
      ghost var id := f.streamID;
      Lookup(id);
      if id in objects {
        ArriveKeeps(objects[id].View(), S.Closed, id in streams);
        objects[id].Note(S.Closed);
      }
      var s := if f.streamID in streams then Some(streams[f.streamID]) else None;
      streams := streams - {f.streamID};
      if s.Some? {
        s.value.DeliverErr(EOF, S.ByPeer);
      }
      if id in objects {
        assert objects[id := objects[id]] == objects;
        StreamChanged(id, objects[id]);
      } else {
        StreamsUnchanged();
      }
      NoneNew();
    }

    /** A PING is answered, a PONG noted, anything else ignored. */
    method DispatchControl(f: Frame, e: N.Env, ghost peer: Peer)
      requires Valid() && f.ftype != TYPE_DATA && f.ftype != TYPE_STREAM_OPEN && f.ftype != TYPE_STREAM_CLOSE
      modifies this`log, enc.w, enc.w.inner.session`send, enc.w.inner.outbound
      ensures Valid() && World(peer) == N.Handle(old(World(peer)), f, e)
    {
      hide Conn.Objects, Conn.Valid, Stream.View, Encoder.Outgoing, L.SendFrame, N.Handle, M.Dispatch;
      WhenValid();
      HandleStep(View(), enc.Outgoing(), dec.r.Rx(), peer, f, e);
      ControlFrame(View(), f);
      if f.ftype == TYPE_PING {
        var error := Send(M.MakeFrame(TYPE_PONG, 0, f.payload), e);
        log := log.(pingsSeen := log.pingsSeen + [f.payload],
                    pongsSent := if error.None? then log.pongsSent + [f.payload] else log.pongsSent);
      } else if f.ftype == TYPE_PONG {
        log := log.(pongsSeen := log.pongsSeen + [f.payload]);
      }
      StreamsUnchanged();
    }

    method Dispatch(f: Frame, e: N.Env, ghost peer: Peer)
      requires Valid()
      modifies this`streams, this`objects, this`log, objects.Values
      modifies enc.w, enc.w.inner.session`send, enc.w.inner.outbound
      ensures Valid() && Grown() && InTable()
      ensures World(peer) == N.Handle(old(World(peer)), f, e)
    {
      hide Conn.Objects, Conn.Valid, Conn.Grown, Conn.InTable, Stream.View, Encoder.Outgoing;
      hide L.SendFrame, N.Handle, M.Dispatch;
      WhenValid();
      HandleStep(View(), enc.Outgoing(), dec.r.Rx(), peer, f, e);
      if f.ftype == TYPE_DATA {
        DispatchData(f);
        SameGrown();
      } else if f.ftype == TYPE_STREAM_OPEN {
        DispatchOpen(f);
      } else if f.ftype == TYPE_STREAM_CLOSE {
        DispatchClose(f);
        SameGrown();
      } else {
        DispatchControl(f, e, peer);
        NoneNew();
      }
    }

    method StopReading(error: Option<Error>)
      requires Valid()
      modifies this`done, this`reading, this`closeErr, objects.Values
      ensures Valid() && View() == M.StopReading(old(View()))
      ensures done && !reading && closeErr == error
    {
      hide Conn.Objects, Conn.Valid, S.DeliverErr;
      WhenValid();
      closeErr, reading := error, false;
      StreamsUnchanged();
      ghost var stopped := View();
      assert stopped == old(View()).(reading := false);
      CloseStops(old(View()));
      Close();
    }

    /** Reads a frame, which changes nothing but the receiving half. */
    method NextFrame() returns (f: Option<Frame>, error: Option<Error>)
      requires Valid()
      modifies dec.r`readBuf, dec.r.session`recv, dec.r.inbound, dec.header
      ensures Valid() && View() == old(View()) && enc.Outgoing() == old(enc.Outgoing())
      ensures L.ReadFrame(old(dec.r.Rx())) == L.Received(f, error, dec.r.Rx())
    {
      hide Conn.Objects, Conn.Valid, Stream.View, Encoder.Outgoing, L.ReadFrame;
      WhenValid();
      f, error := dec.ReadFrame();
      enc.Untouched();
      StreamsUnchanged();
    }

    /** One round of the read loop; `going` says whether there will be another. While the peer's end is
        open, an empty wire would block the round instead of ending the stream. */
    method ReadNext(e: N.Env, ghost peer: Peer) returns (going: bool)
      requires Valid() && reading
      requires L.ReadFrame(dec.r.Rx()).error == Some(EOF) ==> peer.coal.closed
      modifies this, objects.Values, enc.w, enc.w.inner.session, enc.w.inner.outbound
      modifies dec.r`readBuf, dec.r.inbound, dec.header
      ensures Valid() && Grown() && InTable()
      ensures World(peer) == N.StepA(old(World(peer)), N.DispatchOne(e))
      ensures going == reading == L.ReadFrame(old(dec.r.Rx())).frame.Some?
      ensures !going ==> done && closeErr == L.ReadFrame(old(dec.r.Rx())).error
      ensures dec.r.Rx() == L.ReadFrame(old(dec.r.Rx())).rx
    {
      hide Conn.Objects, Conn.Valid, Conn.View, Stream.View, Encoder.Outgoing;
      hide L.SendFrame, L.ReadFrame, N.Handle, N.StepA, M.Close, M.StopReading, S.OffsetOK, Assemble;
      WhenValid();
      NextStep(View(), enc.Outgoing(), dec.r.Rx(), peer, e);
      var f, error := NextFrame();
      if error.Some? {
        StopReading(error);
        NoneNew();
        return false;
      }
      Dispatch(f.value, e, peer);
      return true;
    }

    /** The read loop. It dispatches one frame after the other, and ends by closing the connection at the
        first error. While the peer's end is `open`, an empty wire is no error: the loop is then left
        where its next read blocks, to go on when more has arrived. */
    method ReadLoop(env: nat -> N.Env, open: bool, ghost peer: Peer) returns (blocked: bool, ghost rounds: nat)
      requires Valid() && reading && open == !peer.coal.closed
      modifies this, objects.Values, enc.w, enc.w.inner.session, enc.w.inner.outbound
      modifies dec.r`readBuf, dec.r.inbound, dec.header
      ensures Valid()
      ensures World(peer) == N.Run(old(World(peer)), Rounds(env, rounds))
      ensures blocked ==> open && reading && L.ReadFrame(dec.r.Rx()).error == Some(EOF)
      ensures !blocked ==> done && !reading && closeErr.Some? && (closeErr == Some(EOF) ==> !open)
    {
      hide Conn.Valid, Conn.World, L.ReadFrame, N.StepA, N.Run;
      var going, k := true, 0;
      blocked := false;
      RunNothing(World(peer), env);
      while going
        invariant Valid() && Grown() && going == reading
        invariant !going ==> done && closeErr.Some? && (closeErr == Some(EOF) ==> !open)
        invariant World(peer) == N.Run(old(World(peer)), Rounds(env, k))
        decreases going, |dec.r.readBuf| + |dec.r.inbound.data|
      {
        ghost var before := dec.r.Rx();
        if open && L.ReadFrame(dec.r.Rx()).error == Some(EOF) {
          return true, k;
        }
        RunRound(old(World(peer)), env, k);
        going := ReadNext(env(k), peer);
        if going {
          FrameConsumes(before);
        }
        k := k + 1;
      }
      rounds := k;
    }
  }
}
