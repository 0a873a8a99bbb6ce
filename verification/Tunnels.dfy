/** Two connections on the two ends of one tunnel, as objects. Together they form the two-endpoint
    system: they start as it starts, and whatever acts their ends do, they go through that run of it. */
module Tunnels {
  import opened Bytes
  import opened Io
  import opened Codec
  import C = Coalesce
  import F = FrameCiphers
  import X = Crypto
  import L = Links
  import M = Mux
  import N = Network
  import D = Delivery
  import opened Coalescers
  import opened FrameIO
  import opened Endpoints

  /** What the other end sees of `c`. */
  ghost function PeerOf(c: Conn): Peer
    reads c, c.objects.Values, c.enc.w, c.enc.w.inner, c.enc.w.inner.session, c.dec.r, c.dec.r.session
  {
    Peer(c.View(), c.enc.w.View(), c.enc.w.inner.session.send, c.dec.r.session.recv, c.dec.r.readBuf, c.dec.r.closed)
  }

  /** What each writes, the other reads. */
  predicate Crosswise(a: Conn, b: Conn) {
    && a.enc.w.inner.outbound == b.dec.r.inbound && b.enc.w.inner.outbound == a.dec.r.inbound
    && a.dec.r == a.enc.w.inner && b.dec.r == b.enc.w.inner
  }

  /** They share nothing but the wires. */
  predicate Apart(a: Conn, b: Conn) {
    && Crosswise(a, b)
    && a != b && a.enc.w != b.enc.w && a.dec.r != b.dec.r
    && a.dec.r.session != b.dec.r.session && a.dec.header != b.dec.header
    && a.dec.r.inbound != b.dec.r.inbound
  }

  /** The two-endpoint system that the objects form. */
  ghost function Pair(a: Conn, b: Conn): N.Net
    reads a, a.objects.Values, a.enc.w, a.enc.w.inner.session, a.enc.w.inner.outbound
    reads a.dec.r, a.dec.r.session, a.dec.r.inbound
    reads b, b.objects.Values, b.enc.w, b.enc.w.inner, b.enc.w.inner.session, b.dec.r, b.dec.r.session
  {
    a.World(PeerOf(b))
  }

  /** Both ends see the same system, each from its side. */
  lemma PairFlips(a: Conn, b: Conn)
    requires Crosswise(a, b)
    ensures Pair(b, a) == N.Flip(Pair(a, b))
  {
  }

  lemma StreamsApart(a: Conn, b: Conn)
    requires a != b && a.Valid() && b.Valid()
    ensures a.objects.Values !! b.objects.Values
  {
  }

  // ---------- One end acts ----------

  /** An act that is not possible changes nothing. */
  lemma Impossible(s: N.Net, act: N.Act)
    requires match act
             case Ping(cookie, _) => |cookie| != 8
             case WriteChunk(id, chunk, _) => id !in s.a.objects || !(1 <= |chunk| <= MAX_PAYLOAD)
             case CloseStream(id, _) => id !in s.a.objects
             case ReadStream(id, _) => id !in s.a.objects
             case FireTimer(t, _) => t !in L.Armed(s.ab)
             case DispatchOne(_) =>
               !s.a.reading || (L.Receive(s.ba).error == Some(EOF) && !L.IsShut(s.ba))
             case _ => false
    ensures N.StepA(s, act) == s
  {
  }

  lemma PairParts(c: Conn, o: Conn)
    ensures var s := Pair(c, o);
            && s.a == c.View() && L.Armed(s.ab) == c.enc.w.armed
            && L.IsShut(s.ba) == o.enc.w.closed && L.Receive(s.ba).error == L.ReadFrame(c.dec.r.Rx()).error
            && s.a.reading == c.reading && PeerOf(o).coal.closed == o.enc.w.closed
  {
    hide L.ReadFrame, Conn.Objects;
  }

  /** Acts of the connection: opening, pinging, padding. */
  method ConnActs(c: Conn, o: Conn, act: N.Act)
    requires Apart(c, o) && c.Valid() && o.Valid()
    requires act.OpenStream? || act.Ping? || act.Pad?
    modifies c, c.enc.w, c.dec.r.session`send, c.dec.r.outbound
    ensures c.Valid() && o.Valid() && c.Grown() && c.InTable()
    ensures Pair(c, o) == N.StepA(old(Pair(c, o)), act)
  {
    hide Conn.Valid, Conn.World, Conn.Grown, Conn.InTable, Stream.Held, N.StepA, PeerOf;
    StreamsApart(c, o);
    PairParts(c, o);
    ghost var peer := PeerOf(o);
    match act {
      case OpenStream(e) =>
        var s, error := c.OpenStream(e, peer);
      case Ping(cookie, e) =>
        if |cookie| == 8 {
          var error := c.SendPing(cookie, e, peer);
        } else {
          Impossible(Pair(c, o), act);
        }
        c.NoneNew();
      case Pad(payload, e) =>
        var error := c.SendPadding(|payload|, payload, e, peer);
        c.NoneNew();
    }
    assert PeerOf(o) == peer;
  }

  lemma HeldBy(c: Conn, id: u32)
    requires c.Valid() && id in c.objects
    ensures c.objects[id].Held() && c.objects[id].conn == c && c.objects[id].id == id && id in c.View().objects
  {
  }

  lemma NotHeld(c: Conn, id: u32)
    ensures id in c.View().objects <==> id in c.objects
  {
  }

  /** Acts on a stream that somebody holds, of those that `c` has. */
  method StreamActs(c: Conn, o: Conn, held: map<u32, Stream>, act: N.Act)
    requires Apart(c, o) && c.Valid() && o.Valid() && held == c.objects
    requires act.WriteChunk? || act.CloseStream? || act.ReadStream?
    modifies c.objects.Values, c.enc.w, c.dec.r.session`send, c.dec.r.outbound
    ensures c.Valid() && o.Valid()
    ensures Pair(c, o) == N.StepA(old(Pair(c, o)), act)
  {
    hide Conn.Valid, Conn.World, Conn.View, Stream.Held, Stream.View, N.StepA, PeerOf;
    StreamsApart(c, o);
    PairParts(c, o);
    ghost var peer := PeerOf(o);
    NotHeld(c, act.id);
    if act.id !in held || (act.WriteChunk? && !(1 <= |act.chunk| <= MAX_PAYLOAD)) {
      Impossible(Pair(c, o), act);
    } else {
      HeldBy(c, act.id);
      OnStream(held[act.id], act, peer);
    }
    assert PeerOf(o) == peer;
  }

  method OnStream(s: Stream, act: N.Act, ghost peer: Peer)
    requires s.Held()
    requires (act.WriteChunk? && 1 <= |act.chunk| <= MAX_PAYLOAD) || act.CloseStream? || act.ReadStream?
    requires act.id == s.id
    modifies s, s.conn.enc.w, s.conn.enc.w.inner.session`send, s.conn.enc.w.inner.outbound
    ensures s.conn.Valid()
    ensures s.conn.World(peer) == N.StepA(old(s.conn.World(peer)), act)
  {
    hide Conn.Valid, Conn.World, Stream.View, N.StepA;
    match act {
      case WriteChunk(id, chunk, e) => var error := s.SendChunk(chunk, e, peer);
      case CloseStream(id, e) => var error := s.Close(e, peer);
      case ReadStream(id, n) =>
        var p := new byte[n];
        var r := s.Read(p, peer);
    }
  }

  /** The coalescer acts on its own, or is closed. */
  method CoalescerActs(c: Conn, o: Conn, act: N.Act)
    requires Apart(c, o) && c.Valid() && o.Valid()
    requires act.FireTimer? || act.TickCover? || act.CloseTunnel?
    modifies c.enc.w, c.dec.r.session`send, c.dec.r.outbound, c.dec.r`closed
    ensures c.Valid() && o.Valid()
    ensures Pair(c, o) == N.StepA(old(Pair(c, o)), act)
  {
    hide Conn.Valid, Conn.World, Conn.View, N.StepA, PeerOf;
    PairParts(c, o);
    ghost var peer := PeerOf(o);
    match act {
      case FireTimer(t, draw) =>
        if t in c.enc.w.armed {
          Fires(c, t, draw, peer);
        } else {
          Impossible(Pair(c, o), act);
        }
      case TickCover(e) => Ticks(c, e, peer);
      case CloseTunnel(stopped) => Shuts(c, stopped, peer);
    }
    assert PeerOf(o) == peer;
  }

  method Fires(c: Conn, t: nat, draw: nat, ghost peer: Peer)
    requires c.Valid() && t in c.enc.w.armed && c.dec.r == c.enc.w.inner
    modifies c.enc.w, c.dec.r.session`send, c.dec.r.outbound
    ensures c.Valid() && c.World(peer) == N.StepA(old(c.World(peer)), N.FireTimer(t, draw))
  {
    hide Conn.Valid, Conn.World, N.StepA, C.TimerFlush;
    c.WhenValid();
    c.enc.w.TimerFlush(t, draw);
    c.StreamsUnchanged();
    c.TimerActs(peer, t, draw);
  }

  method Ticks(c: Conn, e: N.Env, ghost peer: Peer)
    requires c.Valid() && c.dec.r == c.enc.w.inner
    modifies c.enc.w, c.dec.r.session`send, c.dec.r.outbound
    ensures c.Valid() && c.World(peer) == N.StepA(old(c.World(peer)), N.TickCover(e))
  {
    hide Conn.Valid, Conn.World, N.StepA, C.CoverTick;
    c.WhenValid();
    c.enc.w.CoverTick(e.draw, e.stopped);
    c.StreamsUnchanged();
    c.CoverActs(peer, e);
  }

  method Shuts(c: Conn, stopped: bool, ghost peer: Peer)
    requires c.Valid() && c.dec.r == c.enc.w.inner
    modifies c.enc.w, c.dec.r.session`send, c.dec.r.outbound, c.dec.r`closed
    ensures c.Valid() && c.World(peer) == N.StepA(old(c.World(peer)), N.CloseTunnel(stopped))
  {
    hide Conn.Valid, Conn.World, N.StepA, C.Close;
    c.WhenValid();
    c.enc.w.Close(stopped);
    c.StreamsUnchanged();
    c.ShutActs(peer, stopped);
  }

  /** The connection is closed. */
  method CloseActs(c: Conn, o: Conn)
    requires Apart(c, o) && c.Valid() && o.Valid()
    modifies c`done, c.objects.Values
    ensures c.Valid() && o.Valid() && c.Grown() && c.InTable()
    ensures Pair(c, o) == N.StepA(old(Pair(c, o)), N.CloseConn)
  {
    hide Conn.Valid, Conn.World, Conn.View, N.StepA, PeerOf;
    StreamsApart(c, o);
    ghost var peer := PeerOf(o);
    Closes(c, peer);
    c.NoneNew();
    assert PeerOf(o) == peer;
  }

  /** The read loop takes a turn, if it is not blocked. */
  method LoopActs(c: Conn, o: Conn, e: N.Env)
    requires Apart(c, o) && c.Valid() && o.Valid()
    modifies c, c.objects.Values, c.enc.w, c.dec.r.session, c.dec.r.outbound
    modifies c.dec.r`readBuf, c.dec.r.inbound, c.dec.header
    ensures c.Valid() && o.Valid() && c.Grown() && c.InTable()
    ensures Pair(c, o) == N.StepA(old(Pair(c, o)), N.DispatchOne(e))
  {
    hide Conn.Valid, Conn.World, Conn.View, Conn.Grown, Conn.InTable, N.StepA, PeerOf, L.ReadFrame;
    StreamsApart(c, o);
    PairParts(c, o);
    ghost var peer := PeerOf(o);
    if !c.reading || (L.ReadFrame(c.dec.r.Rx()).error == Some(EOF) && !o.enc.w.closed) {
      Impossible(Pair(c, o), N.DispatchOne(e));
      c.NoneNew();
    } else {
      var going := c.ReadNext(e, peer);
    }
    assert PeerOf(o) == peer;
  }

  method Closes(c: Conn, ghost peer: Peer)
    requires c.Valid()
    modifies c`done, c.objects.Values
    ensures c.Valid() && c.World(peer) == N.StepA(old(c.World(peer)), N.CloseConn)
  {
    hide Conn.Valid, Conn.View, N.StepA, M.Close;
    ClosedStep(c.World(peer));
    c.Close();
  }

  lemma ClosedStep(s: N.Net)
    ensures N.StepA(s, N.CloseConn) == s.(a := M.Close(s.a))
  {
    hide M.Close;
  }

  /** `c` does any act, and `held` follows the streams it has. */
  method Acts(c: Conn, o: Conn, held: map<u32, Stream>, act: N.Act) returns (held': map<u32, Stream>)
    requires Apart(c, o) && c.Valid() && o.Valid() && held == c.objects
    modifies c, c.objects.Values, c.enc.w, c.dec.r.session, c.dec.r.outbound
    modifies c.dec.r, c.dec.r.inbound, c.dec.header
    ensures c.Valid() && o.Valid() && held' == c.objects && c.Grown()
    ensures Pair(c, o) == N.StepA(old(Pair(c, o)), act)
  {
    hide Conn.Valid, Pair, N.StepA, Conn.Grown;
    held' := held;
    if act.OpenStream? || act.Ping? || act.Pad? {
      ConnActs(c, o, act);
      held' := held + c.streams;
    } else if act.WriteChunk? || act.CloseStream? || act.ReadStream? {
      StreamActs(c, o, held, act);
      c.SameGrown();
    } else if act.DispatchOne? {
      LoopActs(c, o, act.e);
      held' := held + c.streams;
    } else if act.CloseConn? {
      CloseActs(c, o);
    } else {
      CoalescerActs(c, o, act);
      c.SameGrown();
    }
  }

  // ---------- Both ends act ----------

  /** One end or the other does an act. */
  method Turn(a: Conn, b: Conn, heldA: map<u32, Stream>, heldB: map<u32, Stream>, x: N.Action)
    returns (heldA': map<u32, Stream>, heldB': map<u32, Stream>)
    requires Apart(a, b) && a.Valid() && b.Valid() && heldA == a.objects && heldB == b.objects
    modifies a, a.objects.Values, a.enc.w, a.dec.r, a.dec.r.session, a.dec.header
    modifies b, b.objects.Values, b.enc.w, b.dec.r, b.dec.r.session, b.dec.header
    modifies a.dec.r.inbound, b.dec.r.inbound
    ensures a.Valid() && b.Valid() && heldA' == a.objects && heldB' == b.objects && a.Grown() && b.Grown()
    ensures Pair(a, b) == N.Step(old(Pair(a, b)), x)
  {
    hide Conn.Valid, Pair, N.StepA, Conn.Grown;
    heldA', heldB' := heldA, heldB;
    if x.byA {
      heldA' := Acts(a, b, heldA, x.act);
      b.SameGrown();
    } else {
      PairFlips(a, b);
      heldB' := Acts(b, a, heldB, x.act);
      PairFlips(a, b);
      a.SameGrown();
    }
  }

  /** Both ends do the acts `xs`, whatever they are: the objects go through that run of the system. */
  method Play(a: Conn, b: Conn, heldA: map<u32, Stream>, heldB: map<u32, Stream>, xs: seq<N.Action>)
    requires Apart(a, b) && a.Valid() && b.Valid() && heldA == a.objects && heldB == b.objects
    modifies a, a.objects.Values, a.enc.w, a.dec.r, a.dec.r.session, a.dec.header
    modifies b, b.objects.Values, b.enc.w, b.dec.r, b.dec.r.session, b.dec.header
    modifies a.dec.r.inbound, b.dec.r.inbound
    ensures a.Valid() && b.Valid()
    ensures Pair(a, b) == N.Run(old(Pair(a, b)), xs)
  {
    hide Conn.Valid, Pair, N.Step, N.Run;
    var hA, hB := heldA, heldB;
    N.RunEmpty(Pair(a, b));
    for i := 0 to |xs|
      invariant a.Valid() && b.Valid() && hA == a.objects && hB == b.objects && a.Grown() && b.Grown()
      invariant Pair(a, b) == N.Run(old(Pair(a, b)), xs[..i])
    {
      N.RunSnoc(old(Pair(a, b)), xs[..i], xs[i]);
      assert xs[..i + 1] == xs[..i] + [xs[i]];
      hA, hB := Turn(a, b, hA, hB, xs[i]);
    }
    assert xs[..|xs|] == xs;
  }

  /** Both ends of a tunnel right after the handshake. */
  method Connect(cfgA: C.Config, cfgB: C.Config, first: X.CipherState, second: X.CipherState)
    returns (client: Conn, server: Conn)
    ensures client.Valid() && server.Valid() && Apart(client, server)
    ensures Fresh(client) && Fresh(server) && client.objects == server.objects == map[]
    ensures Pair(client, server) == N.Start(cfgA, cfgB, first, second)
  {
    var up := new Wire([], EOF);
    var down := new Wire([], EOF);
    var clientSession := new F.Session(X.InitiatorKeys(first, second));
    var serverSession := new F.Session(X.ResponderKeys(first, second));
    client := Endpoint(down, up, clientSession, cfgA, true);
    server := Endpoint(up, down, serverSession, cfgB, false);
  }

  /** Every layer of `c` is new. */
  twostate predicate Fresh(new c: Conn)
    reads c
  {
    && fresh(c) && fresh(c.enc.w) && fresh(c.dec.r) && fresh(c.dec.r.session) && fresh(c.dec.header)
    && fresh(c.dec.r.inbound) && fresh(c.dec.r.outbound)
  }

  /** One end: the layers on top of each other. */
  method Endpoint(inbound: Wire, outbound: Wire, session: F.Session, cfg: C.Config, isClient: bool)
    returns (c: Conn)
    requires inbound != outbound && inbound.end == EOF
    ensures fresh(c) && fresh(c.enc) && fresh(c.enc.w) && fresh(c.dec.r) && fresh(c.dec.header)
    ensures c.Valid() && c.objects == map[] && c.View() == M.New(isClient)
    ensures c.dec.r == c.enc.w.inner && c.dec.r.session == session && c.enc.w.View() == C.New(cfg)
    ensures c.dec.r.inbound == inbound && c.dec.r.outbound == outbound
    ensures c.dec.r.readBuf == [] && !c.dec.r.closed
  {
    var cipher := new F.FrameCipher(inbound, outbound, session);
    var coalesced := new CoalescingConn(cipher, cfg);
    var enc := new Encoder(coalesced);
    var dec := new Decoder(cipher);
    c := new Conn(enc, dec, isClient);
  }

  /** The life of a tunnel: after the handshake both ends do the acts `xs`, whatever they are. What the
      two connection objects then hold is what that run of the system ends in, */
  method Live(cfgA: C.Config, cfgB: C.Config, first: X.CipherState, second: X.CipherState, xs: seq<N.Action>)
    returns (client: Conn, server: Conn)
    ensures client.Valid() && server.Valid() && Apart(client, server)
    ensures Pair(client, server) == N.Run(N.Start(cfgA, cfgB, first, second), xs)
  {
    hide Conn.Valid, Pair, N.Run;
    client, server := Connect(cfgA, cfgB, first, second);
    Play(client, server, map[], map[], xs);
  }

  /** and with the deployed sizes it is faithful in both directions: nothing is lost, repeated or put out
      of order, and a stream that no act ends has every byte sent for it read, queued or in flight. */
  method LiveFaithfully(first: X.CipherState, second: X.CipherState, xs: seq<N.Action>)
    returns (client: Conn, server: Conn)
    requires D.WithinLimits(D.Deployed(first, second), xs) && D.AllFit(xs, 60133)
    ensures var s := Pair(client, server);
            && D.Faithful(s.a, s.b, s.ab) && D.Faithful(s.b, s.a, s.ba)
            && (forall k, toB :: D.NoneEnds(xs, k, toB) ==> D.Conserved(D.Oriented(s, toB), k))
    ensures client.View() == Pair(client, server).a && server.View() == Pair(client, server).b
  {
    hide Conn.Valid, N.Run, D.Faithful, D.Conserved, D.NoneEnds;
    D.EveryRunIsFaithful(first, second, xs);
    client, server := Live(C.DEPLOYED, C.DEPLOYED, first, second, xs);
  }
}
