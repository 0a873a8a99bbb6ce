/** Which streams a closed connection leaves without an end: closing ends every stream in the table,
    once, so what matters is what enters the table afterwards. */
module Endings {
  import opened Bytes
  import opened Codec
  import opened Links
  import opened Network
  import opened Delivery
  import S = Streams
  import M = Mux

  /** A connection that is done has ended every stream in its table, so no reader blocks for good. */
  ghost predicate Ended(c: M.Conn) {
    c.done ==> forall k :: k in c.table ==> k in c.objects && c.objects[k].readErr.Some?
  }

  /** The act puts a new stream into `a`'s table: its own, whose STREAM_OPEN is accepted, or one that
      the peer opened. */
  predicate Registers(s: Net, act: Act) {
    match act
    case OpenStream(e) => Put(s, M.MakeFrame(TYPE_STREAM_OPEN, s.a.nextID, []), e).error.None?
    case DispatchOne(_) =>
      var f := Receive(s.ba).frame;
      s.a.reading && f.Some? && f.value.ftype == TYPE_STREAM_OPEN
    case _ => false
  }

  lemma DispatchEnds(c: M.Conn, f: Frame, ok: bool)
    requires Ended(c) && c.table <= c.objects.Keys
    ensures Ended(M.Dispatch(c, f, ok)) <==> !(c.done && f.ftype == TYPE_STREAM_OPEN)
  {
    var c' := M.Dispatch(c, f, ok);
    if f.ftype == TYPE_STREAM_OPEN {
      assert c'.objects[f.streamID].readErr.None? && f.streamID in c'.table;
    }
  }

  lemma OpenEnds(c: M.Conn, ok: bool)
    requires Ended(c)
    ensures Ended(M.OpenStream(c, ok)) <==> !(c.done && ok)
  {
    var c' := M.OpenStream(c, ok);
    if ok {
      assert c'.objects[c.nextID].readErr.None? && c.nextID in c'.table;
    }
  }

  lemma CloseEnds(c: M.Conn)
    requires Ended(c) && c.table <= c.objects.Keys
    ensures Ended(M.Close(c)) && Ended(M.StopReading(c))
  {
  }

  /** An act leaves a stream of a done connection without an end exactly when it registers one. */
  lemma StepEnds(s: Net, act: Act)
    requires Ended(s.a) && s.a.table <= s.a.objects.Keys
    ensures Ended(StepA(s, act).a) <==> !(s.a.done && Registers(s, act))
    ensures StepA(s, act).a.table <= StepA(s, act).a.objects.Keys
  {
    hide SendFrame, Receive, S.Arrive, M.Dispatch, M.Close;
    match act {
      case OpenStream(e) => OpenEnds(s.a, Put(s, M.MakeFrame(TYPE_STREAM_OPEN, s.a.nextID, []), e).error.None?);
      case DispatchOne(e) => DispatchOneEnds(s, e);
      case CloseConn => CloseEnds(s.a); TableKept(s.a);
      case _ =>
    }
  }

  lemma TableKept(c: M.Conn)
    requires c.table <= c.objects.Keys
    ensures M.Close(c).table <= M.Close(c).objects.Keys
    ensures M.StopReading(c).table <= M.StopReading(c).objects.Keys
    ensures forall f, ok :: M.Dispatch(c, f, ok).table <= M.Dispatch(c, f, ok).objects.Keys
  {
  }

  lemma DispatchOneEnds(s: Net, e: Env)
    requires Ended(s.a) && s.a.table <= s.a.objects.Keys
    ensures var s' := StepA(s, DispatchOne(e));
            && (Ended(s'.a) <==> !(s.a.done && Registers(s, DispatchOne(e))))
            && s'.a.table <= s'.a.objects.Keys
  {
    hide SendFrame, Receive, S.Arrive, M.Dispatch, M.StopReading, Ended;
    CloseEnds(s.a);
    TableKept(s.a);
    var f := Receive(s.ba).frame;
    assert f.Some? <==> Receive(s.ba).error.None?;
    if f.Some? {
      DispatchEnds(s.a, f.value, false);
      DispatchEnds(s.a, f.value, true);
    }
  }

  // ---------- Every run ----------

  /** At some point of the run a stream enters `a`'s table although `a` is done. */
  predicate Late(s: Net, xs: seq<Action>)
    decreases |xs|
  {
    xs != [] && ((xs[0].byA && s.a.done && Registers(s, xs[0].act)) || Late(Step(s, xs[0]), xs[1..]))
  }

  ghost predicate AlwaysEnded(s: Net, xs: seq<Action>)
    decreases |xs|
  {
    Ended(s.a) && (xs == [] || AlwaysEnded(Step(s, xs[0]), xs[1..]))
  }

  /** In every run, each moment after `a` is done finds all streams in its table ended, if and only if
      none was registered after that. */
  lemma {:induction false} EndedExactlyWithoutLateStreams(s: Net, xs: seq<Action>)
    requires Ended(s.a) && s.a.table <= s.a.objects.Keys
    ensures AlwaysEnded(s, xs) <==> !Late(s, xs)
    decreases |xs|
  {
    if xs != [] {
      hide StepA, Ended, Registers;
      var x, t := xs[0], Step(s, xs[0]);
      if x.byA {
        StepEnds(s, x.act);
        if !(s.a.done && Registers(s, x.act)) {
          EndedExactlyWithoutLateStreams(t, xs[1..]);
        } else {
          assert !Ended(t.a);
        }
      } else {
        StepAFrame(Flip(s), x.act);
        EndedExactlyWithoutLateStreams(t, xs[1..]);
      }
    }
  }

  /** A stream that is registered late, when the read loop is over, never ends by itself: its readers
      stay blocked until its owner closes it, whatever else happens. */
  lemma LateStreamWaits(s: Net, k: u32, act: Act, n: nat)
    requires s.a.done && !s.a.reading && k in s.a.objects && k != s.a.nextID
    requires s.a.objects[k].readErr.None? && s.a.objects[k].readMsgs == [] && s.a.objects[k].readOff == 0
    requires act.CloseStream? ==> act.id != k
    ensures var t := StepA(s, act).a;
            && k in t.objects && t.objects[k].readErr.None? && t.objects[k].readMsgs == []
            && t.objects[k].readOff == 0 && S.ReadOutcome(t.objects[k], n) == S.Blocked
  {
    hide SendFrame, Receive, S.Arrive, S.DeliverErr;
  }
}
