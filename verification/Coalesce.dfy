/** The write coalescer: it gathers frames in a buffer, flushes on size, on a timer or as cover
    traffic, and pads small flushes with one PADDING frame. This module says what each operation
    computes; CoalesceRuns proves what that means over whole runs. */
module Coalesce {
  import opened Bytes
  import opened Io
  import opened Codec

  // ---------- Configuration ----------

  /** Sizes, and intervals in milliseconds. The intervals decide when callbacks run, which is left
      open, and whether there is cover traffic at all. */
  datatype Config = Config(flushBytes: int, minPadded: int, maxPadded: int, flushInterval: int, coverInterval: int)

  /** Settings that make sense are kept, the others replaced; doing it again changes nothing. */
  function Defaults(c: Config): (d: Config)
    ensures Normal(d)
    ensures d.flushBytes == c.flushBytes || (c.flushBytes <= 0 && d.flushBytes == 1300)
    ensures d.minPadded == c.minPadded || (c.minPadded <= 0 && d.minPadded == 1100)
    ensures d.maxPadded == c.maxPadded || (c.maxPadded < d.minPadded && d.maxPadded == 1450)
    ensures c.maxPadded < d.minPadded ==> d.maxPadded == 1450
    ensures d.flushInterval == c.flushInterval || (c.flushInterval <= 0 && d.flushInterval == 8)
    ensures d.coverInterval == c.coverInterval || (c.coverInterval == 0 && d.coverInterval == 25_000)
    ensures d.flushInterval > 0 && d.coverInterval != 0
    ensures d == c && c.minPadded <= c.maxPadded <==>
            Normal(c) && c.minPadded <= c.maxPadded && c.flushInterval > 0 && c.coverInterval != 0
  {
    var flush := if c.flushBytes <= 0 then 1300 else c.flushBytes;
    var low := if c.minPadded <= 0 then 1100 else c.minPadded;
    Config(flush, low, if c.maxPadded < low then 1450 else c.maxPadded,
           if c.flushInterval <= 0 then 8 else c.flushInterval,
           if c.coverInterval == 0 then 25_000 else c.coverInterval)
  }

  /** Settling the defaults settles them for good; and the largest size ends up below the smallest
      exactly when the smallest was set above 1450 and the largest below it. */
  lemma DefaultsSettle(c: Config)
    ensures Defaults(Defaults(c)) == Defaults(c)
    ensures Defaults(c).maxPadded < Defaults(c).minPadded <==> c.minPadded > 1450 && c.maxPadded < c.minPadded
  {
  }

  predicate Normal(c: Config) {
    c.flushBytes > 0 && c.minPadded > 0
  }

  /** What both commands configure. */
  const DEPLOYED := Config(1300, 1100, 1450, 8, 25_000)

  /** The flush size aimed at, for one outcome of the random draw. */
  function Target(c: Config, draw: nat): (t: int)
    ensures c.minPadded <= t <= if c.maxPadded > c.minPadded then c.maxPadded else c.minPadded
  {
    var span := c.maxPadded - c.minPadded;
    if span > 0 then c.minPadded + draw % (span + 1) else c.minPadded
  }

  // ---------- State ----------

  /** `timer` is the callback the coalescer still knows; `armed` are all callbacks that have not
      run yet, among them those whose Stop came too late. The last three fields only record
      history: bytes accepted by Write, padded flushes, and bytes written out by Close. */
  datatype Coal = Coal(
    cfg: Config,
    buf: bytes,
    timer: Option<nat>,
    armed: set<nat>,
    nextTimer: nat,
    closed: bool,
    totalFlushes: nat,
    totalPadding: nat,
    totalBytes: nat,
    accepted: nat,
    paddedFlushes: nat,
    closingBytes: nat)

  function New(cfg: Config): Coal {
    Coal(Defaults(cfg), [], None, {}, 0, false, 0, 0, 0, 0, 0, 0)
  }

  ghost predicate TimersSound(c: Coal) {
    && (forall t :: t in c.armed ==> t < c.nextTimer)
    && (c.timer.Some? ==> c.timer.value in c.armed)
  }

  /** Every byte written out, or about to be, was accepted from a writer or added as padding; a padded
      flush is a flush and adds at least one byte of payload. */
  predicate AccountsSound(c: Coal) {
    && c.totalBytes + |c.buf| + c.closingBytes ==
       c.accepted + c.totalPadding + HEADER_SIZE * c.paddedFlushes
    && c.paddedFlushes <= c.totalFlushes && c.paddedFlushes <= c.totalPadding
  }

  /** What holds between any two operations. While open, the buffer is below the flush threshold,
      and if it holds anything, a callback that will flush it is still to run. */
  ghost predicate Sound(c: Coal) {
    && Normal(c.cfg)
    && TimersSound(c)
    && AccountsSound(c)
    && (if c.closed then c.buf == [] && c.timer.None?
        else |c.buf| < c.cfg.flushBytes && (c.buf != [] ==> c.timer.Some?))
  }

  // ---------- Operations ----------

  function Zeros(n: nat): (z: bytes)
    ensures |z| == n && forall i :: 0 <= i < n ==> z[i] == 0
  {
    seq(n, _ => 0)
  }

  function PadFrame(n: nat): (f: Frame)
    requires n <= MAX_PAYLOAD
    ensures Valid(f)
  {
    Frame(PROTOCOL_VERSION, TYPE_PADDING, 0, Zeros(n))
  }

  /** The padding frame, if any, that a flush of `len` buffered bytes gets. */
  function Padding(cfg: Config, len: nat, draw: nat): (pad: Option<Frame>)
    ensures pad.Some? ==> Valid(pad.value) && pad.value.ftype == TYPE_PADDING && 1 <= |pad.value.payload|
    ensures pad.Some? ==>
              pad.value.streamID == 0 && forall i :: 0 <= i < |pad.value.payload| ==> pad.value.payload[i] == 0
  {
    var room := Target(cfg, draw) - len - HEADER_SIZE;
    if len >= Target(cfg, draw) || room < 1 then None else Some(PadFrame(Min(room, MAX_PAYLOAD)))
  }

  function PadBytes(pad: Option<Frame>): bytes
    requires pad.Some? ==> Valid(pad.value)
  {
    match pad
    case Some(f) => Encode(f)
    case None => []
  }

  /** The outcome of an operation: the state after it, the data handed to the inner connection in
      one write (if any), and the error of the coalescer itself. */
  datatype Outcome = Outcome(c: Coal, out: Option<bytes>, error: Option<Error>)

  /** Stopping the known timer either prevents its callback or comes too late. */
  function StopTimer(c: Coal, stopped: bool): Coal {
    match c.timer
    case Some(t) => c.(timer := None, armed := if stopped then c.armed - {t} else c.armed)
    case None => c
  }

  function Flush(c: Coal, pureCover: bool, draw: nat, stopped: bool): Outcome {
    var s := StopTimer(c, stopped);
    if s.buf == [] && !pureCover then Outcome(s, None, None)
    else
      var pad := Padding(s.cfg, |s.buf|, draw);
      var data := s.buf + PadBytes(pad);
      Outcome(s.(buf := [],
                 totalBytes := s.totalBytes + |data|,
                 totalFlushes := s.totalFlushes + 1,
                 totalPadding := s.totalPadding + if pad.Some? then |pad.value.payload| else 0,
                 paddedFlushes := s.paddedFlushes + if pad.Some? then 1 else 0),
              Some(data), None)
  }

  function Write(c: Coal, p: bytes, draw: nat, stopped: bool): Outcome {
    if c.closed then Outcome(c, None, Some(ClosedPipe))
    else
      var s := c.(buf := c.buf + p, accepted := c.accepted + |p|);
      if |s.buf| >= s.cfg.flushBytes then Flush(s, false, draw, stopped)
      else if s.timer.None? then
        Outcome(s.(timer := Some(s.nextTimer), armed := s.armed + {s.nextTimer}, nextTimer := s.nextTimer + 1),
                None, None)
      else Outcome(s, None, None)
  }

  /** The callback `t` runs. It forgets the known timer, whichever that is. */
  function TimerFlush(c: Coal, t: nat, draw: nat): Outcome
    requires t in c.armed
  {
    var s := c.(armed := c.armed - {t}, timer := None);
    if s.closed then Outcome(s, None, None) else Flush(s, false, draw, false)
  }

  /** One tick of the cover loop. */
  function CoverTick(c: Coal, draw: nat, stopped: bool): Outcome {
    if !c.closed && c.buf == [] then Flush(c, true, draw, stopped) else Outcome(c, None, None)
  }

  function Close(c: Coal, stopped: bool): Outcome {
    if c.closed then Outcome(c, None, None)
    else
      var s := StopTimer(c, stopped);
      Outcome(s.(closed := true, buf := [], closingBytes := s.closingBytes + |s.buf|),
              if s.buf != [] then Some(s.buf) else None, None)
  }

  // ---------- One flush ----------

  /** A flush carries the whole buffer, then at most one padding frame. Unpadded it is at most
      eight bytes short of its target; padded it meets the target, unless the padding would exceed
      the largest frame payload. */
  lemma FlushSize(c: Coal, pureCover: bool, draw: nat, stopped: bool)
    requires Normal(c.cfg)
    ensures var o := Flush(c, pureCover, draw, stopped);
            var pad := Padding(c.cfg, |c.buf|, draw);
            && (o.out.None? <==> c.buf == [] && !pureCover)
            && (o.out.Some? ==>
                  && o.out.value == c.buf + PadBytes(pad)
                  && (pad.None? ==> |o.out.value| >= Target(c.cfg, draw) - HEADER_SIZE)
                  && (pad.Some? ==>
                        |o.out.value| == Min(Target(c.cfg, draw), |c.buf| + HEADER_SIZE + MAX_PAYLOAD)))
  {
  }

  /** The size aimed at is drawn from all sizes between the two bounds, and from no others. */
  lemma TargetReaches(c: Config, size: int)
    requires c.minPadded <= c.maxPadded
    ensures (exists draw :: Target(c, draw) == size) <==> c.minPadded <= size <= c.maxPadded
  {
    if c.minPadded <= size <= c.maxPadded {
      assert Target(c, size - c.minPadded) == size;
    }
  }

  /** A flush counts itself once, with the bytes it sends and the padding among them. It forgets the
      known timer, whose callback still comes exactly if stopping it came too late. */
  lemma FlushCounts(c: Coal, pureCover: bool, draw: nat, stopped: bool)
    requires Normal(c.cfg) && TimersSound(c)
    ensures var o := Flush(c, pureCover, draw, stopped);
            var sent := if o.out.Some? then |o.out.value| else 0;
            && o.c.timer.None? && o.c.nextTimer == c.nextTimer
            && (forall t :: t in o.c.armed <==> t in c.armed && !(stopped && c.timer == Some(t)))
            && o.c.totalBytes == c.totalBytes + sent
            && o.c.totalFlushes == c.totalFlushes + (if o.out.Some? then 1 else 0)
            && (o.c.totalPadding > c.totalPadding <==> o.out.Some? && sent > |c.buf|)
            && (sent > |c.buf| ==> o.c.totalPadding - c.totalPadding == sent - |c.buf| - HEADER_SIZE)
            && o.c.accepted == c.accepted && o.c.closingBytes == c.closingBytes
  {
  }

  /** Where the bytes go: they wait in the buffer, or leave together with it and one padding frame. */
  ghost predicate Moves(buf: bytes, p: bytes, pad: Option<Frame>, o: Outcome)
    requires pad.Some? ==> Valid(pad.value)
  {
    match o.out
    case None => o.c.buf == buf + p
    case Some(data) => o.c.buf == [] && data == (buf + p) + PadBytes(pad)
  }

  lemma WriteMoves(c: Coal, p: bytes, draw: nat, stopped: bool)
    requires Normal(c.cfg)
    ensures var o := Write(c, p, draw, stopped);
            && (o.error.Some? <==> c.closed)
            && (c.closed ==> o.c == c && o.out.None?)
            && (!c.closed ==> Moves(c.buf, p, Padding(c.cfg, |c.buf| + |p|, draw), o))
            && (!c.closed ==> (o.out.Some? <==> |c.buf| + |p| >= c.cfg.flushBytes))
            && o.c.closed == c.closed && o.c.cfg == c.cfg
  {
    hide Padding;
  }

  /** A write that flushes arms no new callback; any other write arms at most one. A callback that
      runs is spent. */
  lemma ArmedCount(c: Coal, p: bytes, draw: nat, stopped: bool, t: nat)
    ensures var o := Write(c, p, draw, stopped);
            |o.c.armed| <= |c.armed| + (if o.out.Some? then 0 else 1)
    ensures t in c.armed ==> |TimerFlush(c, t, draw).c.armed| == |c.armed| - 1
  {
  }

  lemma TimerMoves(c: Coal, t: nat, draw: nat)
    requires Normal(c.cfg) && t in c.armed
    ensures var o := TimerFlush(c, t, draw);
            && Moves(c.buf, [], Padding(c.cfg, |c.buf|, draw), o) && o.error.None?
            && (o.out.Some? <==> !c.closed && c.buf != [])
            && o.c.closed == c.closed && o.c.cfg == c.cfg
  {
  }

  lemma CoverMoves(c: Coal, draw: nat, stopped: bool)
    requires Normal(c.cfg)
    ensures var o := CoverTick(c, draw, stopped);
            && Moves(c.buf, [], Padding(c.cfg, |c.buf|, draw), o) && o.error.None?
            && (if !c.closed && c.buf == [] then o.out == Some(PadBytes(Padding(c.cfg, 0, draw)))
                else o.out.None? && o.c == c)
            && o.c.closed == c.closed && o.c.cfg == c.cfg
  {
    var padding := PadBytes(Padding(c.cfg, 0, draw));
    assert [] + padding == padding;
  }

  lemma CloseMoves(c: Coal, stopped: bool)
    requires Sound(c)
    ensures var o := Close(c, stopped);
            && Moves(c.buf, [], None, o) && o.error.None?
            && (o.out.Some? <==> !c.closed && c.buf != [])
            && (c.closed ==> o.c == c)
            && o.c.closed && o.c.cfg == c.cfg
  {
  }

  // ---------- Soundness is kept by every operation ----------

  lemma NewSound(cfg: Config)
    ensures Sound(New(cfg))
  {
  }

  lemma FlushSound(c: Coal, pureCover: bool, draw: nat, stopped: bool)
    requires Normal(c.cfg) && TimersSound(c) && AccountsSound(c) && !c.closed
    ensures Sound(Flush(c, pureCover, draw, stopped).c)
  {
  }

  lemma WriteSound(c: Coal, p: bytes, draw: nat, stopped: bool)
    requires Sound(c)
    ensures Sound(Write(c, p, draw, stopped).c)
  {
    hide Flush, Target, Padding, PadBytes;
    if !c.closed {
      var s := c.(buf := c.buf + p, accepted := c.accepted + |p|);
      if |s.buf| >= s.cfg.flushBytes {
        FlushSound(s, false, draw, stopped);
      } else {
        Waits(c, p);
      }
    }
  }

  /** Bytes that stay in the buffer have a callback pending. */
  lemma Waits(c: Coal, p: bytes)
    requires Sound(c) && !c.closed && |c.buf + p| < c.cfg.flushBytes
    ensures var s := c.(buf := c.buf + p, accepted := c.accepted + |p|);
            Sound(if s.timer.Some? then s
                  else s.(timer := Some(s.nextTimer), armed := s.armed + {s.nextTimer}, nextTimer := s.nextTimer + 1))
  {
  }

  /** Also for callbacks whose Stop came too late, which then forget a newer timer. */
  lemma TimerSound(c: Coal, t: nat, draw: nat)
    requires Sound(c) && t in c.armed
    ensures Sound(TimerFlush(c, t, draw).c)
  {
  }

  lemma CoverSound(c: Coal, draw: nat, stopped: bool)
    requires Sound(c)
    ensures Sound(CoverTick(c, draw, stopped).c)
  {
  }

  lemma CloseSound(c: Coal, stopped: bool)
    requires Sound(c)
    ensures Sound(Close(c, stopped).c)
  {
  }
}
