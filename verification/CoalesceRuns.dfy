/** The coalescer is transparent: over every run, what it emits decodes to the frames written to
    it, in order, with only whole PADDING frames added, at most one per flush and always last. */
module CoalesceRuns {
  import opened Bytes
  import opened Codec
  import opened Coalesce

  datatype Op =
    | WriteFrame(f: Frame, draw: nat, stopped: bool)
    | Fire(t: nat, draw: nat)
    | Tick(draw: nat, stopped: bool)
    | Shut(stopped: bool)

  /** One write to the inner connection: the frames it carries that were written to the coalescer,
      the padding added after them, and the bytes. */
  datatype Emission = Emission(frames: seq<Frame>, pad: Option<Frame>, data: bytes)

  /** A coalescer with its past: the frames it accepted, those still buffered, and its emissions. */
  datatype Trace = Trace(c: Coal, written: seq<Frame>, pending: seq<Frame>, out: seq<Emission>)

  function Begin(cfg: Config): Trace {
    Trace(New(cfg), [], [], [])
  }

  /** Records the outcome of an operation during which `f` was accepted, if any was. */
  function Record(t: Trace, o: Outcome, accepted: seq<Frame>, pad: Option<Frame>): Trace {
    var pending := t.pending + accepted;
    match o.out
    case None => Trace(o.c, t.written + accepted, pending, t.out)
    case Some(data) => Trace(o.c, t.written + accepted, [], t.out + [Emission(pending, pad, data)])
  }

  function Apply(t: Trace, op: Op): Trace {
    match op
    case WriteFrame(f, draw, stopped) =>
      if |f.payload| > MAX_PAYLOAD then t
      else
        var o := Write(t.c, Encode(f), draw, stopped);
        Record(t, o, if o.error.None? then [f] else [],
               Padding(t.c.cfg, |t.c.buf| + |Encode(f)|, draw))
    case Fire(id, draw) =>
      if id !in t.c.armed then t
      else Record(t, TimerFlush(t.c, id, draw), [], Padding(t.c.cfg, |t.c.buf|, draw))
    case Tick(draw, stopped) =>
      Record(t, CoverTick(t.c, draw, stopped), [], Padding(t.c.cfg, |t.c.buf|, draw))
    case Shut(stopped) =>
      Record(t, Close(t.c, stopped), [], None)
  }

  function Run(t: Trace, ops: seq<Op>): Trace
    decreases |ops|
  {
    if ops == [] then t else Run(Apply(t, ops[0]), ops[1..])
  }

  predicate GoodOp(op: Op) {
    op.WriteFrame? ==> op.f.version == PROTOCOL_VERSION
  }

  // ---------- What every run keeps ----------

  /** The frames an emission decodes to. */
  function Carried(e: Emission): seq<Frame> {
    e.frames + match e.pad case Some(f) => [f] case None => []
  }

  predicate WholeFrames(e: Emission) {
    && AllValid(Carried(e))
    && (e.pad.Some? ==> e.pad.value.ftype == TYPE_PADDING)
    && e.data == EncodeAll(Carried(e))
  }

  function FramesOf(out: seq<Emission>): seq<Frame> {
    if out == [] then [] else FramesOf(out[..|out| - 1]) + out[|out| - 1].frames
  }

  function AllCarried(out: seq<Emission>): seq<Frame> {
    if out == [] then [] else AllCarried(out[..|out| - 1]) + Carried(out[|out| - 1])
  }

  function AllData(out: seq<Emission>): bytes {
    if out == [] then [] else AllData(out[..|out| - 1]) + out[|out| - 1].data
  }

  ghost predicate Inv(t: Trace) {
    && Sound(t.c)
    && AllValid(t.pending) && t.c.buf == EncodeAll(t.pending)
    && (forall i :: 0 <= i < |t.out| ==> WholeFrames(t.out[i]))
    && t.written == FramesOf(t.out) + t.pending
  }

  lemma EmitWhole(pending: seq<Frame>, pad: Option<Frame>, data: bytes)
    requires AllValid(pending)
    requires pad.Some? ==> Valid(pad.value) && pad.value.ftype == TYPE_PADDING
    requires data == EncodeAll(pending) + PadBytes(pad)
    ensures WholeFrames(Emission(pending, pad, data))
  {
    match pad
    case Some(f) =>
      EncodeAllAppend(pending, [f]);
      EncodeAllOne(f);
    case None =>
      assert pending + [] == pending;
  }

  /** One step's record keeps the invariant, given what the operation did to the buffer. */
  lemma RecordKeeps(t: Trace, o: Outcome, accepted: seq<Frame>, p: bytes, pad: Option<Frame>)
    requires Inv(t) && Sound(o.c)
    requires AllValid(t.pending + accepted)
    requires pad.Some? ==> Valid(pad.value) && pad.value.ftype == TYPE_PADDING
    requires EncodeAll(t.pending + accepted) == t.c.buf + p && Moves(t.c.buf, p, pad, o)
    ensures Inv(Record(t, o, accepted, pad))
  {
    hide EncodeAll, Encode, Valid, Sound, PadBytes, WholeFrames;
    var before := FramesOf(t.out);
    assert before + (t.pending + accepted) == t.written + accepted;
    match o.out {
      case None =>
      case Some(data) =>
        EmitWhole(t.pending + accepted, pad, data);
        var e := Emission(t.pending + accepted, pad, data);
        assert (t.out + [e])[..|t.out|] == t.out;
        assert FramesOf(t.out + [e]) == before + e.frames;
        assert FramesOf(t.out + [e]) + [] == t.written + accepted;
        EncodeNone();
    }
  }

  lemma EncodeNone()
    ensures EncodeAll([]) == []
  {
  }

  lemma WriteKeeps(t: Trace, f: Frame, draw: nat, stopped: bool)
    requires Inv(t) && Valid(f)
    ensures Inv(Apply(t, WriteFrame(f, draw, stopped)))
  {
    hide Write, EncodeAll, Encode, Record, FramesOf, WholeFrames, AccountsSound, TimersSound, Padding;
    EncodeAllAppend(t.pending, [f]);
    EncodeAllOne(f);
    WriteSound(t.c, Encode(f), draw, stopped);
    WriteMoves(t.c, Encode(f), draw, stopped);
    var o := Write(t.c, Encode(f), draw, stopped);
    if t.c.closed {
      assert t.c.buf + [] == t.c.buf;
      IdleKeeps(t, o, Padding(t.c.cfg, |t.c.buf| + |Encode(f)|, draw));
    } else {
      RecordKeeps(t, o, [f], Encode(f), Padding(t.c.cfg, |t.c.buf| + |Encode(f)|, draw));
    }
  }

  /** Operations that accept no frame. */
  lemma IdleKeeps(t: Trace, o: Outcome, pad: Option<Frame>)
    requires Inv(t) && Sound(o.c)
    requires pad.Some? ==> Valid(pad.value) && pad.value.ftype == TYPE_PADDING
    requires Moves(t.c.buf, [], pad, o)
    ensures Inv(Record(t, o, [], pad))
  {
    assert t.pending + [] == t.pending;
    assert EncodeAll(t.pending + []) == t.c.buf + [];
    RecordKeeps(t, o, [], [], pad);
  }

  lemma ApplyKeeps(t: Trace, op: Op)
    requires Inv(t) && GoodOp(op)
    ensures Inv(Apply(t, op))
  {
    hide Write, TimerFlush, CoverTick, Close, Record, Moves, Padding;
    match op {
      case WriteFrame(f, draw, stopped) =>
        if |f.payload| <= MAX_PAYLOAD {
          WriteKeeps(t, f, draw, stopped);
        }
      case Fire(id, draw) =>
        if id in t.c.armed {
          TimerSound(t.c, id, draw);
          TimerMoves(t.c, id, draw);
          IdleKeeps(t, TimerFlush(t.c, id, draw), Padding(t.c.cfg, |t.c.buf|, draw));
        }
      case Tick(draw, stopped) =>
        CoverSound(t.c, draw, stopped);
        CoverMoves(t.c, draw, stopped);
        IdleKeeps(t, CoverTick(t.c, draw, stopped), Padding(t.c.cfg, |t.c.buf|, draw));
      case Shut(stopped) =>
        CloseSound(t.c, stopped);
        CloseMoves(t.c, stopped);
        IdleKeeps(t, Close(t.c, stopped), None);
    }
  }

  lemma {:induction false} RunKeeps(t: Trace, ops: seq<Op>)
    requires Inv(t)
    requires forall i :: 0 <= i < |ops| ==> GoodOp(ops[i])
    ensures Inv(Run(t, ops))
    decreases |ops|
  {
    if ops != [] {
      ApplyKeeps(t, ops[0]);
      RunKeeps(Apply(t, ops[0]), ops[1..]);
    }
  }

  lemma {:induction false} EmissionsDecode(out: seq<Emission>)
    requires forall i :: 0 <= i < |out| ==> WholeFrames(out[i])
    ensures AllValid(AllCarried(out)) && AllData(out) == EncodeAll(AllCarried(out))
  {
    if out != [] {
      var init, last := out[..|out| - 1], out[|out| - 1];
      EmissionsDecode(init);
      EncodeAllAppend(AllCarried(init), Carried(last));
    }
  }

  /** For every run: the emitted bytes decode, to their very end, to the written frames in order,
      each flush followed by at most one PADDING frame; the frames not yet emitted are still in the
      buffer; and no accepted byte is stranded or unaccounted for. */
  lemma Transparent(cfg: Config, ops: seq<Op>)
    requires forall i :: 0 <= i < |ops| ==> GoodOp(ops[i])
    ensures var t := Run(Begin(cfg), ops);
            && (forall i :: 0 <= i < |t.out| ==> WholeFrames(t.out[i]))
            && t.written == FramesOf(t.out) + t.pending
            && AllValid(t.pending) && t.c.buf == EncodeAll(t.pending)
            && DecodeAll(AllData(t.out)) == AllCarried(t.out)
            && Complete(AllData(t.out))
            && Sound(t.c)
  {
    assert FramesOf([]) + [] == [];
    RunKeeps(Begin(cfg), ops);
    var t := Run(Begin(cfg), ops);
    EmissionsDecode(t.out);
    DecodeAllEncodeAll(AllCarried(t.out));
  }
}
