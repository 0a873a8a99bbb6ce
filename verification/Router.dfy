/** The TUN router: one reader of the device hands each IP packet to the bounded channel registered
    for its destination address. Header offsets are those of section 3.1 of RFC 791 and section 3
    of RFC 8200. */
module Router {
  import opened Bytes

  const QUEUE := 512

  // ---------- Addresses ----------

  function Version(pkt: bytes): nat {
    if pkt == [] then 0 else pkt[0] / 16
  }

  /** The destination address as a key, empty for anything that is not an IP packet. */
  function DstKey(pkt: bytes): bytes {
    if Version(pkt) == 4 && |pkt| >= 20 then pkt[16..20]
    else if Version(pkt) == 6 && |pkt| >= 40 then pkt[24..40]
    else []
  }

  function SrcKey(pkt: bytes): bytes {
    if Version(pkt) == 4 && |pkt| >= 20 then pkt[12..16]
    else if Version(pkt) == 6 && |pkt| >= 40 then pkt[8..24]
    else []
  }

  /** What may be written to the device. */
  predicate IsValidIP(pkt: bytes) {
    if Version(pkt) == 4 then
      && |pkt| >= 20
      && 20 <= pkt[2] as int * 256 + pkt[3] as int <= |pkt|
    else Version(pkt) == 6 && |pkt| >= 40
  }

  /** Keys of the two address families never coincide, and every packet the device would take has
      both addresses. */
  lemma KeysSeparateFamilies(p: bytes, q: bytes)
    ensures DstKey(p) != [] && (DstKey(p) == DstKey(q) || DstKey(p) == SrcKey(q)) ==> Version(p) == Version(q)
    ensures IsValidIP(p) ==> DstKey(p) != [] && SrcKey(p) != []
    ensures DstKey(p) != [] <==> SrcKey(p) != []
  {
  }

  /** An IPv4 header without options begins with version and header length, type of service and total
      length; eight more bytes come before the addresses. */
  function Packet4(first: byte, tos: byte, total: u16, more: bytes, src: bytes, dst: bytes, rest: bytes): bytes {
    [first, tos] + PutU16(total) + more + src + dst + rest
  }

  /** Eight bytes come before the addresses of an IPv6 header. */
  function Packet6(more: bytes, src: bytes, dst: bytes, rest: bytes): bytes {
    more + src + dst + rest
  }

  /** The keys of a packet are its addresses, and the device takes it if its total length is that of a
      header at least, and not beyond its end. */
  lemma AddressesOf4(first: byte, tos: byte, total: u16, more: bytes, src: bytes, dst: bytes, rest: bytes)
    requires first / 16 == 4 && |more| == 8 && |src| == |dst| == 4
    ensures var pkt := Packet4(first, tos, total, more, src, dst, rest);
            && SrcKey(pkt) == src && DstKey(pkt) == dst
            && (IsValidIP(pkt) <==> 20 <= total <= 20 + |rest|)
  {
    var pkt := Packet4(first, tos, total, more, src, dst, rest);
    assert pkt[2..4] == PutU16(total);
    assert GetU16(PutU16(total)) == total;
  }

  lemma AddressesOf6(more: bytes, src: bytes, dst: bytes, rest: bytes)
    requires |more| == 8 && more[0] / 16 == 6 && |src| == |dst| == 16
    ensures var pkt := Packet6(more, src, dst, rest);
            SrcKey(pkt) == src && DstKey(pkt) == dst && IsValidIP(pkt)
  {
  }

  /** Nothing else has addresses: a packet with keys is put together from them. */
  lemma KeysAreAddresses(pkt: bytes)
    requires DstKey(pkt) != []
    ensures if Version(pkt) == 4
            then |DstKey(pkt)| == |SrcKey(pkt)| == 4 && |pkt| >= 20 &&
                 pkt == Packet4(pkt[0], pkt[1], GetU16(pkt[2..4]), pkt[4..12], SrcKey(pkt), DstKey(pkt), pkt[20..])
            else Version(pkt) == 6 && |DstKey(pkt)| == |SrcKey(pkt)| == 16 && |pkt| >= 40 &&
                 pkt == Packet6(pkt[..8], SrcKey(pkt), DstKey(pkt), pkt[40..])
  {
    if Version(pkt) == 4 {
      U16RoundTrip(0, pkt[2..4]);
    }
  }

  // ---------- The dispatch table ----------

  /** A packet that was not put into its channel: its position in the packets read from the device,
      and how many packets were waiting in the channel at that moment. */
  datatype Lost = Lost(pos: nat, waiting: nat)

  /** A client's channel. `accepted` are positions in the packets read from the device that were put
      into the channel, `dropped` those that were not; `taken` counts those a writer took out; `since`
      is how many packets had been read when the channel was made. */
  datatype Chan = Chan(
    key: bytes,
    queue: seq<bytes>,
    closed: bool,
    since: nat,
    accepted: seq<nat>,
    dropped: seq<Lost>,
    taken: nat)

  /** Channels are named by their position in `chans`. `tun` are all packets read from the device.
      A send on a closed channel, or closing one twice, would panic. */
  datatype Table = Table(routes: map<bytes, nat>, chans: seq<Chan>, tun: seq<bytes>, panicked: bool)

  const EMPTY := Table(map[], [], [], false)

  function Registered(t: Table, key: bytes): Table {
    t.(routes := t.routes[key := |t.chans|], chans := t.chans + [Chan(key, [], false, |t.tun|, [], [], 0)])
  }

  function Unregistered(t: Table, key: bytes): Table {
    if key !in t.routes then t
    else
      var i := t.routes[key];
      var t' := t.(routes := map k | k in t.routes && k != key :: t.routes[k]);
      if i < |t.chans| && !t.chans[i].closed then t'.(chans := t.chans[i := t.chans[i].(closed := true)])
      else t'.(panicked := true)
  }

  /** One packet read from the device. */
  function Dispatch(t: Table, pkt: bytes): Table {
    var pos, t' := |t.tun|, t.(tun := t.tun + [pkt]);
    var key := DstKey(pkt);
    if key == [] || key !in t.routes then t'
    else
      var i := t.routes[key];
      if i >= |t.chans| || t.chans[i].closed then t'.(panicked := true)
      else
        var c := t.chans[i];
        if |c.queue| < QUEUE then
          t'.(chans := t.chans[i := Accept(c, pkt, pos)])
        else t'.(chans := t.chans[i := Drop(c, pos)])
  }

  /** A client's writer takes the next packet, if there is one. */
  function Take(t: Table, i: nat): Table {
    if i < |t.chans| && t.chans[i].queue != [] then
      var c := t.chans[i];
      t.(chans := t.chans[i := c.(queue := c.queue[1..], taken := c.taken + 1)])
    else t
  }

  // ---------- What every table keeps ----------

  predicate Increasing(ns: seq<nat>, bound: nat) {
    && (forall i, j :: 0 <= i < j < |ns| ==> ns[i] < ns[j])
    && (forall i :: 0 <= i < |ns| ==> ns[i] < bound)
  }

  /** The channel's packets are packets of the device addressed to its key, in the order they were
      read, with at most 512 waiting; and nothing was dropped but when 512 were. */
  predicate ChanSound(tun: seq<bytes>, c: Chan) {
    && |c.queue| <= QUEUE && c.since <= |tun|
    && Increasing(c.accepted, |tun|)
    && (forall i :: 0 <= i < |c.accepted| ==> DstKey(tun[c.accepted[i]]) == c.key && c.accepted[i] >= c.since)
    && c.taken + |c.queue| == |c.accepted|
    && (forall i :: 0 <= i < |c.queue| ==> c.queue[i] == tun[c.accepted[c.taken + i]])
    && (forall d :: d in c.dropped ==> d.pos < |tun| && d.waiting == QUEUE)
  }

  /** A registered channel accepted or dropped every packet addressed to it since it was made. */
  predicate NothingMissed(tun: seq<bytes>, c: Chan) {
    c.key != [] ==>
      forall p :: c.since <= p < |tun| && DstKey(tun[p]) == c.key ==> p in c.accepted || Lost(p, QUEUE) in c.dropped
  }

  ghost predicate Sound(t: Table) {
    && !t.panicked
    && (forall i :: 0 <= i < |t.chans| ==> ChanSound(t.tun, t.chans[i]))
    && (forall k :: k in t.routes ==>
          && t.routes[k] < |t.chans|
          && t.chans[t.routes[k]].key == k && !t.chans[t.routes[k]].closed
          && NothingMissed(t.tun, t.chans[t.routes[k]]))
  }

  lemma RegisterSound(t: Table, key: bytes)
    requires Sound(t)
    ensures Sound(Registered(t, key))
  {
  }

  lemma UnregisterSound(t: Table, key: bytes)
    requires Sound(t)
    ensures Sound(Unregistered(t, key))
  {
    hide ChanSound, NothingMissed;
    if key in t.routes {
      var i, t' := t.routes[key], Unregistered(t, key);
      ClosedSound(t.tun, t.chans[i]);
      assert forall j :: 0 <= j < |t.chans| && j != i ==> t'.chans[j] == t.chans[j];
      assert forall k :: k in t'.routes ==> t.routes[k] != i;
    }
  }

  lemma ClosedSound(tun: seq<bytes>, c: Chan)
    requires ChanSound(tun, c)
    ensures ChanSound(tun, c.(closed := true))
  {
  }

  lemma MorePackets(tun: seq<bytes>, pkt: bytes, c: Chan)
    requires ChanSound(tun, c)
    ensures ChanSound(tun + [pkt], c)
    ensures NothingMissed(tun, c) && DstKey(pkt) != c.key ==> NothingMissed(tun + [pkt], c)
  {
  }

  function Accept(c: Chan, pkt: bytes, pos: nat): Chan {
    c.(queue := c.queue + [pkt], accepted := c.accepted + [pos])
  }

  function Drop(c: Chan, pos: nat): Chan {
    c.(dropped := c.dropped + [Lost(pos, |c.queue|)])
  }

  lemma AcceptSound(tun: seq<bytes>, pkt: bytes, c: Chan)
    requires ChanSound(tun, c) && DstKey(pkt) == c.key && |c.queue| < QUEUE
    ensures ChanSound(tun + [pkt], Accept(c, pkt, |tun|))
  {
    hide DstKey;
    var c', tun' := Accept(c, pkt, |tun|), tun + [pkt];
    assert Increasing(c'.accepted, |tun'|);
  }

  lemma AcceptMissesNothing(tun: seq<bytes>, pkt: bytes, c: Chan)
    requires NothingMissed(tun, c) && DstKey(pkt) == c.key
    ensures NothingMissed(tun + [pkt], Accept(c, pkt, |tun|))
    ensures |c.queue| == QUEUE ==> NothingMissed(tun + [pkt], Drop(c, |tun|))
  {
  }

  /** A packet addressed to a registered channel is put into it exactly when there is room; every
      other channel stays as it was, and no send meets a closed channel. */
  lemma DispatchSound(t: Table, pkt: bytes)
    requires Sound(t)
    ensures Sound(Dispatch(t, pkt))
    ensures var t', key := Dispatch(t, pkt), DstKey(pkt);
            && t'.routes == t.routes && |t'.chans| == |t.chans|
            && (forall i :: 0 <= i < |t.chans| && (key == [] || key !in t.routes || i != t.routes[key]) ==>
                  t'.chans[i] == t.chans[i])
            && (key != [] && key in t.routes ==>
                  var i := t.routes[key];
                  t'.chans[i] == if |t.chans[i].queue| < QUEUE then Accept(t.chans[i], pkt, |t.tun|)
                                 else Drop(t.chans[i], |t.tun|))
  {
    var t', key := Dispatch(t, pkt), DstKey(pkt);
    var hit := if key != [] && key in t.routes then t.routes[key] else |t.chans|;
    hide ChanSound, NothingMissed, DstKey;
    forall i | 0 <= i < |t.chans|
      ensures ChanSound(t'.tun, t'.chans[i])
      ensures (NothingMissed(t.tun, t.chans[i]) && (i == hit || key != t.chans[i].key)) ==>
                NothingMissed(t'.tun, t'.chans[i])
    {
      MorePackets(t.tun, pkt, t.chans[i]);
      if i == hit {
        assert |t.chans[i].queue| <= QUEUE by { Bounded(t.tun, t.chans[i]); }
        if NothingMissed(t.tun, t.chans[i]) {
          AcceptMissesNothing(t.tun, pkt, t.chans[i]);
        }
        if |t.chans[i].queue| < QUEUE {
          AcceptSound(t.tun, pkt, t.chans[i]);
        } else {
          DropSound(t.tun, pkt, t.chans[i]);
        }
      }
    }
    forall k | k in t.routes
      ensures NothingMissed(t'.tun, t'.chans[t.routes[k]])
    {
      if t.routes[k] != hit && key == k {
        EmptyKeyMissesNothing(t'.tun, t'.chans[t.routes[k]]);
      }
    }
  }

  lemma Bounded(tun: seq<bytes>, c: Chan)
    requires ChanSound(tun, c)
    ensures |c.queue| <= QUEUE
  {
  }

  lemma DropSound(tun: seq<bytes>, pkt: bytes, c: Chan)
    requires ChanSound(tun, c) && |c.queue| == QUEUE
    ensures ChanSound(tun + [pkt], Drop(c, |tun|))
  {
    hide DstKey, Increasing;
    MorePackets(tun, pkt, c);
  }

  lemma EmptyKeyMissesNothing(tun: seq<bytes>, c: Chan)
    requires c.key == []
    ensures NothingMissed(tun, c)
  {
  }

  lemma TakeSound(t: Table, i: nat)
    requires Sound(t)
    ensures Sound(Take(t, i))
  {
    hide ChanSound, NothingMissed;
    if i < |t.chans| && t.chans[i].queue != [] {
      var t' := Take(t, i);
      TakenSound(t.tun, t.chans[i]);
      TakenMissesNothing(t.tun, t.chans[i], t'.chans[i]);
      assert forall j :: 0 <= j < |t.chans| && j != i ==> t'.chans[j] == t.chans[j];
    }
  }

  /** A writer takes out the packet that has waited longest, which is the next it was to get. */
  lemma TakesFirst(t: Table, i: nat)
    requires Sound(t) && i < |t.chans| && t.chans[i].queue != []
    ensures var c, d := t.chans[i], Take(t, i).chans[i];
            && c.queue == [t.tun[c.accepted[c.taken]]] + d.queue
            && d.taken == c.taken + 1 && d.accepted == c.accepted && d.closed == c.closed
            && (forall j :: 0 <= j < |t.chans| && j != i ==> Take(t, i).chans[j] == t.chans[j])
            && Take(t, i).routes == t.routes
  {
    hide Increasing, DstKey;
    assert ChanSound(t.tun, t.chans[i]);
  }

  lemma TakenSound(tun: seq<bytes>, c: Chan)
    requires ChanSound(tun, c) && c.queue != []
    ensures ChanSound(tun, c.(queue := c.queue[1..], taken := c.taken + 1))
  {
  }

  lemma TakenMissesNothing(tun: seq<bytes>, c: Chan, d: Chan)
    requires d.key == c.key && d.since == c.since && d.accepted == c.accepted && d.dropped == c.dropped
    ensures NothingMissed(tun, c) ==> NothingMissed(tun, d)
  {
  }

  // ---------- Every run ----------

  datatype Op =
    | RegisterOp(key: bytes)
    | UnregisterOp(key: bytes)
    | DispatchOp(pkt: bytes)
    | TakeOp(chan: nat)

  function Apply(t: Table, op: Op): Table {
    match op
    case RegisterOp(key) => Registered(t, key)
    case UnregisterOp(key) => Unregistered(t, key)
    case DispatchOp(pkt) => Dispatch(t, pkt)
    case TakeOp(i) => Take(t, i)
  }

  function Run(t: Table, ops: seq<Op>): Table
    decreases |ops|
  {
    if ops == [] then t else Run(Apply(t, ops[0]), ops[1..])
  }

  lemma {:induction false} RunSound(t: Table, ops: seq<Op>)
    requires Sound(t)
    ensures Sound(Run(t, ops))
    decreases |ops|
  {
    if ops != [] {
      hide Sound, Registered, Unregistered, Dispatch, Take;
      match ops[0] {
        case RegisterOp(key) => RegisterSound(t, key);
        case UnregisterOp(key) => UnregisterSound(t, key);
        case DispatchOp(pkt) => DispatchSound(t, pkt);
        case TakeOp(i) => TakeSound(t, i);
      }
      RunSound(Apply(t, ops[0]), ops[1..]);
    }
  }

  /** Over every run from an empty router: nothing panics, so every channel is closed at most once
      and none is written after its close; every channel only ever held packets addressed to its
      key, in the order read, at most 512 at a time, and handed them on first in, first out; it
      dropped packets only when 512 were waiting; and a registered channel accepted every other
      packet addressed to it since it was made. */
  lemma EveryRun(ops: seq<Op>)
    ensures var t := Run(EMPTY, ops);
            && !t.panicked
            && (forall i :: 0 <= i < |t.chans| ==>
                  var c := t.chans[i];
                  && |c.queue| <= QUEUE && Increasing(c.accepted, |t.tun|)
                  && (forall j :: 0 <= j < |c.accepted| ==> DstKey(t.tun[c.accepted[j]]) == c.key)
                  && c.taken + |c.queue| == |c.accepted|
                  && (forall j :: 0 <= j < |c.queue| ==> c.queue[j] == t.tun[c.accepted[c.taken + j]])
                  && (forall d :: d in c.dropped ==> d.waiting == QUEUE))
            && (forall k :: k in t.routes && k != [] ==>
                  && t.routes[k] < |t.chans|
                  && var c := t.chans[t.routes[k]];
                  && c.key == k && !c.closed
                  && (forall p :: c.since <= p < |t.tun| && DstKey(t.tun[p]) == k ==>
                        p in c.accepted || Lost(p, QUEUE) in c.dropped))
  {
    RunSound(EMPTY, ops);
    var t := Run(EMPTY, ops);
    hide Run;
    assert forall i :: 0 <= i < |t.chans| ==> ChanSound(t.tun, t.chans[i]);
  }

  /** The answer to a client's packet reaches that client: registered under the source address of its
      first packet, its channel gets the next packet addressed to that source. */
  lemma AnswersReachTheirClient(t: Table, first: bytes, answer: bytes)
    requires Sound(t) && SrcKey(first) != [] && DstKey(answer) == SrcKey(first)
    ensures var t' := Dispatch(Registered(t, SrcKey(first)), answer);
            t'.chans[|t.chans|].queue == [answer]
  {
  }

  /** The same of packets put together from their addresses: once a client has sent a packet from its
      address, a packet from anywhere to that address is queued for it, in either family. */
  lemma PacketsReachTheirAddress(t: Table, client: bytes, server: bytes, f: byte, tos: byte, total: u16, more: bytes,
                                 first: bytes, answer: bytes)
    requires Sound(t) && |more| == 8
    ensures f / 16 == 4 && |client| == |server| == 4 ==>
              var up := Packet4(f, tos, total, more, client, server, first);
              var down := Packet4(f, tos, total, more, server, client, answer);
              Dispatch(Registered(t, SrcKey(up)), down).chans[|t.chans|].queue == [down]
    ensures more[0] / 16 == 6 && |client| == |server| == 16 ==>
              var up := Packet6(more, client, server, first);
              var down := Packet6(more, server, client, answer);
              Dispatch(Registered(t, SrcKey(up)), down).chans[|t.chans|].queue == [down]
  {
    hide Packet4, Packet6, SrcKey, DstKey, Registered, Dispatch, Sound;
    if f / 16 == 4 && |client| == |server| == 4 {
      AddressesOf4(f, tos, total, more, client, server, first);
      AddressesOf4(f, tos, total, more, server, client, answer);
      AnswersReachTheirClient(t, Packet4(f, tos, total, more, client, server, first),
                              Packet4(f, tos, total, more, server, client, answer));
    }
    if more[0] / 16 == 6 && |client| == |server| == 16 {
      AddressesOf6(more, client, server, first);
      AddressesOf6(more, server, client, answer);
      AnswersReachTheirClient(t, Packet6(more, client, server, first), Packet6(more, server, client, answer));
    }
  }

  /** What a predecessor's late unregister does: it removes by key, and so takes away the channel of
      the client that registered the same address after it. */
  lemma LateUnregisterHitsSuccessor(key: bytes)
    ensures var t := Run(EMPTY, [RegisterOp(key), RegisterOp(key), UnregisterOp(key)]);
            |t.chans| == 2 && key !in t.routes && t.chans[1].closed && !t.chans[0].closed
  {
    var t1 := Registered(EMPTY, key);
    var t2 := Registered(t1, key);
    var ops := [RegisterOp(key), RegisterOp(key), UnregisterOp(key)];
    assert ops[1..] == [RegisterOp(key), UnregisterOp(key)] && ops[1..][1..] == [UnregisterOp(key)];
    assert ops[1..][1..][1..] == [];
    assert Run(t2, [UnregisterOp(key)]) == Run(Unregistered(t2, key), []);
  }

  // ---------- Exactly when a channel keeps its route ----------

  /** Channel `i` is the route of its key, and open. */
  predicate Routed(t: Table, i: nat) {
    i < |t.chans| && t.chans[i].key in t.routes && t.routes[t.chans[i].key] == i && !t.chans[i].closed
  }

  /** No operation of the run concerns the route of `key`. */
  predicate Untouched(ops: seq<Op>, key: bytes) {
    forall i :: 0 <= i < |ops| ==> ops[i] != RegisterOp(key) && ops[i] != UnregisterOp(key)
  }

  lemma ApplySound(t: Table, op: Op)
    requires Sound(t)
    ensures Sound(Apply(t, op))
  {
    hide Sound, Registered, Unregistered, Dispatch, Take;
    match op
    case RegisterOp(key) => RegisterSound(t, key);
    case UnregisterOp(key) => UnregisterSound(t, key);
    case DispatchOp(pkt) => DispatchSound(t, pkt);
    case TakeOp(i) => TakeSound(t, i);
  }

  /** One operation leaves channel `i` its route unless it is a register or unregister of its key; and
      a channel without its route never gets it back. */
  lemma RouteStep(t: Table, op: Op, i: nat)
    requires Sound(t) && i < |t.chans|
    ensures var t' := Apply(t, op);
            && i < |t'.chans| && t'.chans[i].key == t.chans[i].key
            && (Routed(t, i) ==>
                  (Routed(t', i) <==> op != RegisterOp(t.chans[i].key) && op != UnregisterOp(t.chans[i].key)))
            && (!Routed(t, i) ==> !Routed(t', i))
  {
    hide ChanSound, NothingMissed, DstKey;
    match op
    case DispatchOp(pkt) => DispatchSound(t, pkt);
    case _ =>
  }

  lemma {:induction false} RouteLost(t: Table, ops: seq<Op>, i: nat)
    requires Sound(t) && i < |t.chans| && !Routed(t, i)
    ensures !Routed(Run(t, ops), i)
    decreases |ops|
  {
    if ops != [] {
      hide Sound, Apply, Routed;
      ApplySound(t, ops[0]);
      RouteStep(t, ops[0], i);
      RouteLost(Apply(t, ops[0]), ops[1..], i);
    }
  }

  /** Over every run a channel keeps its route, and stays open, if and only if nobody registers or
      unregisters its key meanwhile. */
  lemma {:induction false} KeepsRouteExactly(t: Table, ops: seq<Op>, i: nat)
    requires Sound(t) && Routed(t, i)
    ensures Routed(Run(t, ops), i) <==> Untouched(ops, t.chans[i].key)
    decreases |ops|
  {
    if ops != [] {
      hide Sound, Apply;
      var key, t' := t.chans[i].key, Apply(t, ops[0]);
      ApplySound(t, ops[0]);
      RouteStep(t, ops[0], i);
      if Routed(t', i) {
        KeepsRouteExactly(t', ops[1..], i);
        UntouchedSplit(ops, key);
      } else {
        RouteLost(t', ops[1..], i);
      }
    }
  }

  lemma UntouchedSplit(ops: seq<Op>, key: bytes)
    requires ops != []
    ensures Untouched(ops, key) <==>
            ops[0] != RegisterOp(key) && ops[0] != UnregisterOp(key) && Untouched(ops[1..], key)
  {
    assert ops == [ops[0]] + ops[1..];
  }

  /** In particular a new channel does, whatever was there before. */
  lemma NewChannelKeepsRouteExactly(t: Table, key: bytes, ops: seq<Op>)
    requires Sound(t)
    ensures Routed(Run(Registered(t, key), ops), |t.chans|) <==> Untouched(ops, key)
  {
    RegisterSound(t, key);
    KeepsRouteExactly(Registered(t, key), ops, |t.chans|);
  }

  // A bridge registers its client's key when it begins, which makes the channel it is named by, and
  // unregisters that key when it ends.

  datatype BridgeOp = Begins(key: bytes) | Ends(bridge: nat) | Carries(pkt: bytes) | Drains(bridge: nat)

  function OpOf(t: Table, b: BridgeOp): Op {
    match b
    case Begins(key) => RegisterOp(key)
    case Ends(j) => if j < |t.chans| then UnregisterOp(t.chans[j].key) else TakeOp(j)
    case Carries(pkt) => DispatchOp(pkt)
    case Drains(j) => TakeOp(j)
  }

  function RunBridges(t: Table, bs: seq<BridgeOp>): Table
    decreases |bs|
  {
    if bs == [] then t else RunBridges(Apply(t, OpOf(t, bs[0])), bs[1..])
  }

  /** `b` begins another bridge for `key`, or ends one. */
  predicate Disturbs(t: Table, b: BridgeOp, key: bytes) {
    match b
    case Begins(k) => k == key
    case Ends(j) => j < |t.chans| && t.chans[j].key == key
    case _ => false
  }

  /** Some operation of the run begins a bridge for `key`, or ends one that was there before. */
  predicate Disturbed(t: Table, bs: seq<BridgeOp>, key: bytes) {
    exists n :: 0 <= n < |bs| && Disturbs(t, bs[n], key)
  }

  lemma KeysKept(t: Table, op: Op)
    requires Sound(t)
    ensures var t' := Apply(t, op);
            && (forall j :: 0 <= j < |t.chans| ==> j < |t'.chans| && t'.chans[j].key == t.chans[j].key)
            && |t'.chans| == |t.chans| + (if op.RegisterOp? then 1 else 0)
            && (op.RegisterOp? ==> t'.chans[|t.chans|].key == op.key)
  {
    hide ChanSound, NothingMissed, DstKey;
  }

  lemma DisturbedSplit(t: Table, bs: seq<BridgeOp>, key: bytes)
    requires Sound(t) && bs != []
    ensures Disturbed(t, bs, key) <==>
            Disturbs(t, bs[0], key) || Disturbed(Apply(t, OpOf(t, bs[0])), bs[1..], key)
  {
    hide Sound, Apply;
    var t' := Apply(t, OpOf(t, bs[0]));
    KeysKept(t, OpOf(t, bs[0]));
    assert bs == [bs[0]] + bs[1..];
    if !Disturbs(t, bs[0], key) {
      assert forall n :: 0 <= n < |bs| - 1 ==> (Disturbs(t', bs[1..][n], key) <==> Disturbs(t, bs[n + 1], key));
    }
  }

  /** A bridge's channel keeps its route, and stays open, if and only if its client begins no other
      bridge and none of that client ends, neither itself nor one that began before it: so it must
      have been the latest, and the earlier ones must have unregistered before it registered. */
  lemma {:induction false} BridgeKeepsRouteExactly(t: Table, bs: seq<BridgeOp>, i: nat)
    requires Sound(t) && Routed(t, i)
    ensures Routed(RunBridges(t, bs), i) <==> !Disturbed(t, bs, t.chans[i].key)
    decreases |bs|
  {
    if bs != [] {
      hide Sound, Apply, Routed, Disturbed;
      var op, key := OpOf(t, bs[0]), t.chans[i].key;
      assert i < |t.chans| by { RoutedInside(t, i); }
      ApplySound(t, op);
      RouteStep(t, op, i);
      DisturbedSplit(t, bs, key);
      if Disturbs(t, bs[0], key) {
        BridgeRouteLost(Apply(t, op), bs[1..], i);
      } else {
        BridgeKeepsRouteExactly(Apply(t, op), bs[1..], i);
      }
    }
  }

  lemma RoutedInside(t: Table, i: nat)
    requires Routed(t, i)
    ensures i < |t.chans|
  {
  }

  lemma {:induction false} BridgeRouteLost(t: Table, bs: seq<BridgeOp>, i: nat)
    requires Sound(t) && i < |t.chans| && !Routed(t, i)
    ensures !Routed(RunBridges(t, bs), i)
    decreases |bs|
  {
    if bs != [] {
      hide Sound, Apply, Routed;
      var op := OpOf(t, bs[0]);
      ApplySound(t, op);
      RouteStep(t, op, i);
      BridgeRouteLost(Apply(t, op), bs[1..], i);
    }
  }

  // ---------- The router object ----------

  function DispatchAll(t: Table, pkts: seq<bytes>): Table {
    if pkts == [] then t else Dispatch(DispatchAll(t, pkts[..|pkts| - 1]), pkts[|pkts| - 1])
  }

  class TunRouter {
    var routes: map<bytes, nat>
    var chans: seq<Chan>
    var tun: seq<bytes>

    ghost function View(): Table
      reads this
    {
      Table(routes, chans, tun, false)
    }

    ghost predicate Valid()
      reads this
    {
      Sound(View())
    }

    constructor ()
      ensures Valid() && View() == EMPTY
    {
      routes, chans, tun := map[], [], [];
    }

    method Register(key: bytes) returns (ch: nat)
      requires Valid()
      modifies this
      ensures Valid() && View() == Registered(old(View()), key)
      ensures ch == |old(chans)| && routes[key] == ch
    {
      RegisterSound(View(), key);
      ch := |chans|;
      chans := chans + [Chan(key, [], false, |tun|, [], [], 0)];
      routes := routes[key := ch];
    }

    method Unregister(key: bytes)
      requires Valid()
      modifies this
      ensures Valid() && View() == Unregistered(old(View()), key)
    {
      UnregisterSound(View(), key);
      if key in routes {
        var ch := routes[key];
        routes := map k | k in routes && k != key :: routes[k];
        chans := chans[ch := chans[ch].(closed := true)];
      }
    }

    method DispatchPacket(pkt: bytes)
      requires Valid()
      modifies this
      ensures Valid() && View() == Dispatch(old(View()), pkt)
    {
      DispatchSound(View(), pkt);
      var pos := |tun|;
      var dst := DstKey(pkt);
      if dst != [] && dst in routes {
        var ch := routes[dst];
        var c := chans[ch];
        if |c.queue| < QUEUE {
          chans := chans[ch := Accept(c, pkt, pos)];
        } else {
          chans := chans[ch := Drop(c, pos)];
        }
      }
      tun := tun + [pkt];
    }

    /** The loop that owns the device, over the packets it delivers until it fails. */
    method ReadLoop(pkts: seq<bytes>)
      requires Valid()
      modifies this
      ensures Valid() && View() == DispatchAll(old(View()), pkts)
    {
      for i := 0 to |pkts|
        invariant Valid() && View() == DispatchAll(old(View()), pkts[..i])
      {
        DispatchPacket(pkts[i]);
        assert pkts[..i + 1][..i] == pkts[..i];
      }
      assert pkts[..|pkts|] == pkts;
    }

    /** The start of a bridge: the client is known by the source address of its first packet. */
    method Connect(first: bytes) returns (ch: Option<nat>, forward: bool)
      requires Valid()
      modifies this
      ensures Valid() && (ch.None? <==> SrcKey(first) == [])
      ensures View() == if ch.Some? then Registered(old(View()), SrcKey(first)) else old(View())
      ensures ch.Some? ==> ch.value < |chans| && chans[ch.value].key == SrcKey(first)
      ensures forward <==> IsValidIP(first)
    {
      var key := SrcKey(first);
      forward := IsValidIP(first);
      if key == [] {
        return None, forward;
      }
      var c := Register(key);
      ch := Some(c);
    }
  }
}
