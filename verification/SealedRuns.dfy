/** What a sealed byte stream promises over whole runs: what is read is a prefix of what was
    written, for every cutting into writes and reads, and even when sealed frames are lost,
    repeated, reordered, or come from elsewhere. */
module SealedRuns {
  import opened Bytes
  import opened Io
  import opened Crypto

  // ---------- A writer and a reader over an honest transport ----------

  /** `CloseOp` is the reader closing its end, after which it can read only what is open already. */
  datatype Op = WriteOp(plain: bytes) | ReadOp(size: nat) | CloseOp

  /** One direction between two endpoints, with everything accepted from the writer (`sealed` are
      the writes that became sealed frames) and everything handed to the reader so far. */
  datatype Pipe = Pipe(send: CipherState, rx: Rx, written: bytes, sealed: seq<bytes>, read: bytes)

  function Start(cs: CipherState): Pipe {
    Pipe(cs, Rx(cs, [], [], false), [], [], [])
  }

  function Apply(p: Pipe, op: Op): Pipe {
    match op
    case WriteOp(plain) =>
      var s := Send(p.send, plain);
      p.(send := s.cs, rx := p.rx.(wire := p.rx.wire + s.onWire),
         written := if s.error.None? then p.written + plain else p.written,
         sealed := if s.onWire != [] then p.sealed + [plain] else p.sealed)
    case ReadOp(size) =>
      var r := Read(p.rx, size);
      p.(rx := r.rx, read := p.read + r.got)
    case CloseOp => p.(rx := p.rx.(closed := true))
  }

  function Run(p: Pipe, ops: seq<Op>): Pipe
    decreases |ops|
  {
    if ops == [] then p else Run(Apply(p, ops[0]), ops[1..])
  }

  predicate Inv(p: Pipe) {
    && p.rx.Intact()
    && p.send.key == p.rx.recv.key
    && p.send.nonce == p.rx.recv.nonce + p.rx.Flying()
    && p.written == p.read + p.rx.Readable()
  }

  lemma SendKeepsInv(p: Pipe, plain: bytes)
    requires Inv(p)
    ensures Inv(Apply(p, WriteOp(plain)))
  {
    hide Clean, OpenAll, SealFrame;
    SendIntact(p.send, p.rx, plain);
    var accepted := if Send(p.send, plain).error.None? then plain else [];
    assert (p.read + p.rx.Readable()) + accepted == p.read + (p.rx.Readable() + accepted);
    assert p.written + [] == p.written;
  }

  lemma ReadKeepsInv(p: Pipe, size: nat)
    requires Inv(p)
    ensures Inv(Apply(p, ReadOp(size)))
  {
    hide Clean, OpenAll, Read, Concat, Rx.Readable, Rx.Pending;
    if size > 0 {
      ReadIntact(p.rx, size);
      var r := Read(p.rx, size);
      assert p.read + (r.got + r.rx.Readable()) == (p.read + r.got) + r.rx.Readable();
    } else {
      NoSizeNoRead(p.rx);
      assert p.read + [] == p.read;
    }
  }

  lemma NoSizeNoRead(rx: Rx)
    ensures Read(rx, 0) == Pulled([], None, rx)
  {
  }

  lemma {:induction false} RunKeepsInv(p: Pipe, ops: seq<Op>)
    requires Inv(p)
    ensures Inv(Run(p, ops))
    decreases |ops|
  {
    if ops != [] {
      match ops[0] {
        case WriteOp(plain) => SendKeepsInv(p, plain);
        case ReadOp(size) => ReadKeepsInv(p, size);
        case CloseOp =>
      }
      RunKeepsInv(Apply(p, ops[0]), ops[1..]);
    }
  }

  /** For every interleaving of writes and reads of every size: the bytes read, then those opened
      but unread, then those still sealed on the wire, are the bytes written; and the nonces of the
      two sides differ by the number of sealed frames on the wire. */
  lemma {:induction false} RoundTrip(cs: CipherState, ops: seq<Op>)
    ensures var p := Run(Start(cs), ops);
            && p.written == p.read + p.rx.readBuf + Concat(OpenAll(p.rx.recv, p.rx.wire))
            && p.read <= p.written
            && p.send.nonce - p.rx.recv.nonce == |OpenAll(p.rx.recv, p.rx.wire)|
  {
    assert [] + Start(cs).rx.Readable() == [];
    RunKeepsInv(Start(cs), ops);
  }

  // ---------- What the nonces count ----------

  /** The sender's nonce counts the frames sealed, the receiver's those opened. */
  predicate Counted(cs: CipherState, p: Pipe) {
    var m := p.rx.recv.nonce - cs.nonce;
    && p.send.nonce == cs.nonce + |p.sealed|
    && 0 <= m <= |p.sealed|
    && OpenAll(p.rx.recv, p.rx.wire) == p.sealed[m..]
    && p.read + p.rx.readBuf == Concat(p.sealed[..m])
  }

  lemma SendCounts(cs: CipherState, p: Pipe, plain: bytes)
    requires Inv(p) && Counted(cs, p)
    ensures Counted(cs, Apply(p, WriteOp(plain)))
  {
    hide Clean, OpenAll, SealFrame, Concat;
    var m := p.rx.recv.nonce - cs.nonce;
    if Send(p.send, plain).onWire == [] {
      assert p.rx.wire + [] == p.rx.wire;
    } else {
      CleanAppend(p.rx.recv, p.rx.wire, plain);
      assert (p.sealed + [plain])[m..] == p.sealed[m..] + [plain];
      assert (p.sealed + [plain])[..m] == p.sealed[..m];
    }
  }

  lemma ReadCounts(cs: CipherState, p: Pipe, size: nat)
    requires Inv(p) && Counted(cs, p)
    ensures Counted(cs, Apply(p, ReadOp(size)))
  {
    hide OpenNext, Concat;
    var m, r := p.rx.recv.nonce - cs.nonce, Read(p.rx, size);
    if size == 0 || p.rx.readBuf != [] || p.rx.closed {
      hide OpenAll, Clean;
      Assoc(p.read, r.got, r.rx.readBuf);
      assert r.got + r.rx.readBuf == p.rx.readBuf;
    } else {
      match OpenNext(p.rx.recv, p.rx.wire)
      case Refused(_, _) =>
        assert p.read + [] == p.read;
      case Opened(plain, rest) =>
        assert r.got + r.rx.readBuf == plain;
        OneMore(p.sealed, m, OpenAll(p.rx.recv.Next(), rest), p.read, plain, r.got, r.rx.readBuf);
    }
  }

  lemma OneMore(sealed: seq<bytes>, m: nat, later: seq<bytes>, read: bytes, plain: bytes, got: bytes, held: bytes)
    requires m <= |sealed| && sealed[m..] == [plain] + later
    requires read + [] == Concat(sealed[..m]) && got + held == plain
    ensures m < |sealed| && sealed[m + 1..] == later
    ensures (read + got) + held == Concat(sealed[..m + 1])
  {
    hide Concat;
    assert sealed[m] == sealed[m..][0] == plain;
    assert sealed[m + 1..] == sealed[m..][1..];
    assert sealed[..m + 1] == sealed[..m] + [plain];
    ConcatSnoc(sealed[..m], plain);
    assert read + [] == read;
    Assoc(read, got, held);
  }

  lemma CloseKeeps(cs: CipherState, p: Pipe)
    requires Inv(p) && Counted(cs, p)
    ensures Inv(Apply(p, CloseOp)) && Counted(cs, Apply(p, CloseOp))
  {
  }

  lemma {:induction false} RunCounts(cs: CipherState, p: Pipe, ops: seq<Op>)
    requires Inv(p) && Counted(cs, p)
    ensures Counted(cs, Run(p, ops))
    decreases |ops|
  {
    if ops != [] {
      hide Inv, Counted;
      match ops[0] {
        case WriteOp(plain) => SendKeepsInv(p, plain); SendCounts(cs, p, plain);
        case ReadOp(size) => ReadKeepsInv(p, size); ReadCounts(cs, p, size);
        case CloseOp => CloseKeeps(cs, p);
      }
      RunCounts(cs, Apply(p, ops[0]), ops[1..]);
    }
  }

  /** The bytes read and held are the first `m` plaintexts sealed. */
  predicate AreFirst(p: Pipe, m: nat) {
    m <= |p.sealed| && p.read + p.rx.readBuf == Concat(p.sealed[..m])
  }

  /** For every run: the sender's nonce has advanced by one for every write that became a sealed
      frame, so writes go on being accepted until exactly MAX_NONCE - `cs.nonce` of them were; and the
      receiver's has advanced by one for every plaintext it opened, which are the first ones sealed
      and make up the bytes read and held. */
  lemma {:induction false} NoncesCount(cs: CipherState, ops: seq<Op>, plain: bytes)
    ensures var p := Run(Start(cs), ops);
            var m := p.rx.recv.nonce - cs.nonce;
            && p.send.nonce - cs.nonce == |p.sealed|
            && m >= 0 && AreFirst(p, m)
            && p.written == Concat(p.sealed)
            && (Send(p.send, plain).error == Some(NonceExhausted) <==>
                  Sealable(plain) && |p.sealed| == MAX_NONCE - cs.nonce)
  {
    hide Inv, Counted, AreFirst, Run, OpenAll, Clean, Concat, SealFrame, Send, Start, Sealable;
    StartCounted(cs);
    RunKeepsInv(Start(cs), ops);
    RunCounts(cs, Start(cs), ops);
    CountedMeans(cs, Run(Start(cs), ops), plain);
  }

  lemma StartCounted(cs: CipherState)
    ensures Inv(Start(cs)) && Counted(cs, Start(cs))
  {
    assert [] + Start(cs).rx.Readable() == [];
  }

  lemma CountedMeans(cs: CipherState, p: Pipe, plain: bytes)
    requires Inv(p) && Counted(cs, p)
    ensures var m := p.rx.recv.nonce - cs.nonce;
            && p.send.nonce - cs.nonce == |p.sealed|
            && m >= 0 && AreFirst(p, m)
            && p.written == Concat(p.sealed)
            && (Send(p.send, plain).error == Some(NonceExhausted) <==>
                  Sealable(plain) && |p.sealed| == MAX_NONCE - cs.nonce)
  {
    hide OpenAll, Clean, Concat, SealFrame;
    var m := p.rx.recv.nonce - cs.nonce;
    assert p.sealed == p.sealed[..m] + p.sealed[m..];
    ConcatAppend(p.sealed[..m], p.sealed[m..]);
    Assoc(p.read, p.rx.readBuf, Concat(p.sealed[m..]));
  }

  // ---------- A transport that loses, repeats, reorders and injects sealed frames ----------

  /** A sealed frame as it arrives: the state it was sealed in, and its plaintext. */
  datatype Arrival = Arrival(sealer: CipherState, plain: bytes)

  /** `a` is one of the frames the peer sealed from state `cs` on for the plaintexts `plains`, or
      was sealed under some other key (by the other direction, or another session). */
  predicate Plausible(cs: CipherState, plains: seq<bytes>, a: Arrival) {
    && Sealable(a.plain)
    && (a.sealer.key == cs.key ==>
          && 0 <= a.sealer.nonce - cs.nonce < |plains|
          && a.plain == plains[a.sealer.nonce - cs.nonce])
  }

  predicate AllSealable(arrivals: seq<Arrival>) {
    forall i :: 0 <= i < |arrivals| ==> Sealable(arrivals[i].plain)
  }

  predicate AllPlausible(cs: CipherState, plains: seq<bytes>, arrivals: seq<Arrival>) {
    forall i :: 0 <= i < |arrivals| ==> Plausible(cs, plains, arrivals[i])
  }

  function OnWire(arrivals: seq<Arrival>): bytes
    requires AllSealable(arrivals)
  {
    if arrivals == [] then [] else SealFrame(arrivals[0].sealer, arrivals[0].plain) + OnWire(arrivals[1..])
  }

  /** How many plaintexts get through when the receiver waits for number `next`: each frame is
      accepted just when it is the awaited one. */
  function Accepted(cs: CipherState, arrivals: seq<Arrival>): nat
    decreases |arrivals|
  {
    if arrivals == [] then 0
    else if arrivals[0].sealer == cs && !cs.Exhausted() then 1 + Accepted(cs.Next(), arrivals[1..])
    else Accepted(cs, arrivals[1..])
  }

  /** All bytes obtained by reads of the given sizes, carrying on after errors. */
  function ReadMany(rx: Rx, sizes: seq<nat>): Pulled
    decreases |sizes|
  {
    if sizes == [] then Pulled([], None, rx)
    else
      var r := Read(rx, sizes[0]);
      var more := ReadMany(r.rx, sizes[1..]);
      Pulled(r.got + more.got, None, more.rx)
  }

  /** The receiver after `next` accepted plaintexts, with the frames `arrivals` still to arrive: what it
      holds unread ends the plaintexts accepted so far. */
  ghost predicate Awaiting(cs: CipherState, plains: seq<bytes>, next: nat, arrivals: seq<Arrival>, rx: Rx) {
    && next <= |plains|
    && cs.nonce + |plains| <= MAX_NONCE
    && AllSealable(arrivals) && AllPlausible(cs, plains, arrivals)
    && rx.recv == cs.After(next) && !rx.closed
    && rx.wire == OnWire(arrivals)
  }

  lemma ReadAwaited(cs: CipherState, plains: seq<bytes>, next: nat, arrivals: seq<Arrival>, rx: Rx, size: nat)
    returns (next': nat, arrivals': seq<Arrival>)
    requires Awaiting(cs, plains, next, arrivals, rx) && size > 0
    ensures var r := Read(rx, size);
            && Awaiting(cs, plains, next', arrivals', r.rx)
            && next <= next'
            && rx.readBuf + Concat(plains[next..next']) == r.got + r.rx.readBuf
            && next' + Accepted(cs.After(next'), arrivals') == next + Accepted(cs.After(next), arrivals)
            && (r.error == Some(EOF) ==> arrivals == arrivals' == [])
  {
    var r := Read(rx, size);
    hide OpenNext, SealFrame;
    if rx.readBuf != [] || arrivals == [] {
      next', arrivals' := next, arrivals;
      assert plains[next..next] == [];
      assert rx.readBuf + [] == r.got + r.rx.readBuf;
    } else {
      var a := arrivals[0];
      arrivals' := arrivals[1..];
      assert Plausible(cs, plains, a);
      if rx.recv.Exhausted() {
        ExhaustedRefuses(rx.recv, a, OnWire(arrivals'));
        next' := next;
        assert plains[next..next] == [];
      } else {
        OpenSealedFrame(rx.recv, a.sealer, a.plain, OnWire(arrivals'));
        if rx.recv == a.sealer {
          next' := next + 1;
          assert plains[next..next + 1] == [a.plain];
          ConcatOne(a.plain);
          assert a.plain == r.got + r.rx.readBuf;
        } else {
          next' := next;
          assert plains[next..next] == [];
        }
      }
    }
  }

  lemma ExhaustedRefuses(cs: CipherState, a: Arrival, x: bytes)
    requires cs.Exhausted() && Sealable(a.plain)
    ensures OpenNext(cs, SealFrame(a.sealer, a.plain) + x) == Refused(NonceExhausted, x)
  {
  }

  lemma {:induction false} ReadManyAwaited(cs: CipherState, plains: seq<bytes>, next: nat, arrivals: seq<Arrival>,
                                           rx: Rx, sizes: seq<nat>)
    returns (last: nat, left: seq<Arrival>)
    requires Awaiting(cs, plains, next, arrivals, rx)
    requires forall i :: 0 <= i < |sizes| ==> sizes[i] > 0
    ensures var r := ReadMany(rx, sizes);
            && Awaiting(cs, plains, last, left, r.rx)
            && next <= last
            && rx.readBuf + Concat(plains[next..last]) == r.got + r.rx.readBuf
            && last + Accepted(cs.After(last), left) == next + Accepted(cs.After(next), arrivals)
    decreases |sizes|
  {
    if sizes == [] {
      last, left := next, arrivals;
      assert plains[next..next] == [];
    } else {
      var next', arrivals' := ReadAwaited(cs, plains, next, arrivals, rx, sizes[0]);
      last, left := ReadManyAwaited(cs, plains, next', arrivals', Read(rx, sizes[0]).rx, sizes[1..]);
      ConcatSlices(plains, next, next', last);
      Regroup(rx.readBuf, Concat(plains[next..next']), Concat(plains[next'..last]),
              Read(rx, sizes[0]).got, Read(rx, sizes[0]).rx.readBuf,
              ReadMany(Read(rx, sizes[0]).rx, sizes[1..]).got, ReadMany(rx, sizes).rx.readBuf);
    }
  }

  lemma ConcatSlices<T>(ss: seq<seq<T>>, i: nat, j: nat, k: nat)
    requires i <= j <= k <= |ss|
    ensures Concat(ss[i..k]) == Concat(ss[i..j]) + Concat(ss[j..k])
  {
    assert ss[i..k] == ss[i..j] + ss[j..k];
    ConcatAppend(ss[i..j], ss[j..k]);
  }

  lemma Regroup(held: bytes, c1: bytes, c2: bytes, got1: bytes, held1: bytes, got2: bytes, held2: bytes)
    requires held + c1 == got1 + held1
    requires held1 + c2 == got2 + held2
    ensures held + (c1 + c2) == (got1 + got2) + held2
  {
    calc {
      held + (c1 + c2);
      (held + c1) + c2;
      got1 + (held1 + c2);
      (got1 + got2) + held2;
    }
  }

  /** Whatever happens to sealed frames on the way, the bytes delivered are a prefix of the bytes
      sent; and once everything that arrived is consumed, they are exactly the plaintexts whose
      frames were awaited when they came. */
  lemma {:induction false} OnlyAPrefixGetsThrough(cs: CipherState, plains: seq<bytes>, arrivals: seq<Arrival>,
                                                  sizes: seq<nat>)
    requires cs.nonce + |plains| <= MAX_NONCE
    requires AllSealable(arrivals) && AllPlausible(cs, plains, arrivals)
    requires forall i :: 0 <= i < |sizes| ==> sizes[i] > 0
    ensures var r := ReadMany(Rx(cs, [], OnWire(arrivals), false), sizes);
            && r.got <= Concat(plains)
            && (r.rx.wire == [] && r.rx.readBuf == [] ==>
                  Accepted(cs, arrivals) <= |plains| && r.got == Concat(plains[..Accepted(cs, arrivals)]))
  {
    var rx := Rx(cs, [], OnWire(arrivals), false);
    var last, left := ReadManyAwaited(cs, plains, 0, arrivals, rx, sizes);
    PrefixOfAll(plains, last, ReadMany(rx, sizes).got, ReadMany(rx, sizes).rx.readBuf);
    if left == [] {
      NothingLeft(cs.After(last), left);
    }
  }

  lemma PrefixOfAll(plains: seq<bytes>, last: nat, got: bytes, held: bytes)
    requires last <= |plains|
    requires [] + Concat(plains[0..last]) == got + held
    ensures got <= Concat(plains)
    ensures held == [] ==> got == Concat(plains[..last])
  {
    hide Concat;
    var head, tail := Concat(plains[..last]), Concat(plains[last..]);
    assert plains == plains[..last] + plains[last..];
    ConcatAppend(plains[..last], plains[last..]);
    assert plains[0..last] == plains[..last];
    assert [] + head == head;
    assert Concat(plains) == got + (held + tail);
  }

  lemma NothingLeft(cs: CipherState, arrivals: seq<Arrival>)
    requires arrivals == []
    ensures Accepted(cs, arrivals) == 0
  {
  }

  /** The frames as sealed, undisturbed: all of them get through. */
  lemma {:induction false} UndisturbedAllAccepted(cs: CipherState, plains: seq<bytes>)
    requires cs.nonce + |plains| <= MAX_NONCE
    ensures Accepted(cs, seq(|plains|, i requires 0 <= i < |plains| => Arrival(cs.After(i), plains[i]))) == |plains|
    decreases |plains|
  {
    if plains != [] {
      var arrivals := seq(|plains|, i requires 0 <= i < |plains| => Arrival(cs.After(i), plains[i]));
      var tail := plains[1..];
      assert arrivals[1..] == seq(|tail|, i requires 0 <= i < |tail| => Arrival(cs.Next().After(i), tail[i]));
      UndisturbedAllAccepted(cs.Next(), tail);
    }
  }
}
