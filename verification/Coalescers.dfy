/** The write coalescer as the program runs it, on top of the sealed framing. */
module Coalescers {
  import opened Bytes
  import opened Io
  import opened Codec
  import C = Coalesce
  import F = FrameCiphers
  import X = Crypto
  import L = Links

  class CoalescingConn {
    const inner: F.FrameCipher
    const cfg: C.Config

    var buf: bytes
    var timer: Option<nat>
    var closed: bool
    var totalFlushes: nat
    var totalPadding: nat
    var totalBytes: nat

    // The runtime's timers that have not called back yet.
    var armed: set<nat>
    var nextTimer: nat

    ghost var accepted: nat
    ghost var paddedFlushes: nat
    ghost var closingBytes: nat

    /** The inner connection is closed together with this one. */
    ghost predicate Valid()
      reads this, inner
    {
      inner.Valid() && inner.closed == closed
    }

    ghost function View(): C.Coal
      reads this
    {
      C.Coal(cfg, buf, timer, armed, nextTimer, closed,
             totalFlushes, totalPadding, totalBytes, accepted, paddedFlushes, closingBytes)
    }

    /** The state became that of the outcome `o`, and what `o` hands on went through the inner
        connection. */
    twostate predicate Performed(new o: C.Outcome)
      reads this, inner.session, inner.outbound
    {
      View() == o.c && Emitted(L.Emit(old(inner.session.send), o))
    }

    twostate predicate Emitted(new s: X.Sent)
      reads this, inner.session, inner.outbound
    {
      && inner.session.send == s.cs
      && inner.outbound.data == old(inner.outbound.data) + s.onWire
    }

    constructor (inner: F.FrameCipher, cfg: C.Config)
      requires inner.Valid() && !inner.closed
      ensures Valid() && this.inner == inner && View() == C.New(cfg) && C.Sound(View())
    {
      this.inner := inner;
      this.cfg := C.Defaults(cfg);
      buf, timer, closed := [], None, false;
      totalFlushes, totalPadding, totalBytes := 0, 0, 0;
      armed, nextTimer := {}, 0;
      accepted, paddedFlushes, closingBytes := 0, 0, 0;
      C.NewSound(cfg);
    }

    /** `draw` is the random choice of a flush size, `stopped` whether stopping the known timer, if
        that happens, still prevents its callback. */
    method Write(p: bytes, draw: nat, stopped: bool) returns (n: nat, error: Option<Error>)
      requires Valid()
      modifies this, inner.session`send, inner.outbound
      ensures Valid()
      ensures var o := C.Write(old(View()), p, draw, stopped);
              Performed(o) && error == L.Emit(old(inner.session.send), o).error
      ensures n == if error.None? then |p| else 0
      ensures C.Sound(old(View())) ==> C.Sound(View())
    {
      hide C.Flush, C.Sound;
      if C.Sound(View()) {
        C.WriteSound(View(), p, draw, stopped);
      }
      if closed {
        assert inner.outbound.data + [] == inner.outbound.data;
        return 0, Some(ClosedPipe);
      }
      buf, accepted := buf + p, accepted + |p|;
      if |buf| >= cfg.flushBytes {
        error := FlushLocked(false, draw, stopped);
        n := if error.None? then |p| else 0;
        return;
      }
      if timer.None? {
        timer, armed, nextTimer := Some(nextTimer), armed + {nextTimer}, nextTimer + 1;
      }
      assert inner.outbound.data + [] == inner.outbound.data;
      return |p|, None;
    }

    /** The callback `t` runs. */
    method TimerFlush(t: nat, draw: nat)
      requires Valid() && t in armed
      modifies this, inner.session`send, inner.outbound
      ensures Valid() && Performed(C.TimerFlush(old(View()), t, draw))
      ensures C.Sound(old(View())) ==> C.Sound(View())
    {
      hide C.Flush, C.Sound;
      if C.Sound(View()) {
        C.TimerSound(View(), t, draw);
      }
      armed := armed - {t};
      timer := None;
      if closed {
        assert inner.outbound.data + [] == inner.outbound.data;
        return;
      }
      var _ := FlushLocked(false, draw, false);
    }

    method StopTimer(stopped: bool)
      modifies this`timer, this`armed
      ensures View() == C.StopTimer(old(View()), stopped)
    {
      match timer
      case Some(t) =>
        if stopped {
          armed := armed - {t};
        }
        timer := None;
      case None =>
    }

    method FlushLocked(pureCover: bool, draw: nat, stopped: bool) returns (error: Option<Error>)
      requires inner.Valid() && !inner.closed
      modifies this, inner.session`send, inner.outbound
      ensures closed == old(closed)
      ensures var o := C.Flush(old(View()), pureCover, draw, stopped);
              Performed(o) && error == L.Emit(old(inner.session.send), o).error
    {
      hide C.Flush, X.Send;
      FlushSteps(View(), pureCover, draw, stopped);
      StopTimer(stopped);
      if |buf| == 0 && !pureCover {
        assert inner.outbound.data + [] == inner.outbound.data;
        return None;
      }
      error := FlushStopped(draw);
    }

    /** The flush itself, once the timer is stopped. */
    method FlushStopped(draw: nat) returns (error: Option<Error>)
      requires inner.Valid() && !inner.closed && timer.None?
      modifies this, inner.session`send, inner.outbound
      ensures closed == old(closed)
      ensures var o := C.Flush(old(View()), true, draw, false);
              Performed(o) && error == L.Emit(old(inner.session.send), o).error
    {
      hide X.Send, C.Padding, C.PadBytes;
      var room := AppendPadding(draw);
      error := SendBuf();
      if room > 0 {
        totalPadding, paddedFlushes := totalPadding + room, paddedFlushes + 1;
      }
    }

    /** Pads the buffer to the target size with a PADDING frame of `room` payload bytes, unless it
        is big enough already, or so close that the frame would be degenerate. */
    method AppendPadding(draw: nat) returns (room: nat)
      modifies this`buf
      ensures var pad := C.Padding(cfg, |old(buf)|, draw);
              && buf == old(buf) + C.PadBytes(pad)
              && room == if pad.Some? then |pad.value.payload| else 0
    {
      var target := PickTarget(draw);
      if |buf| >= target || target - |buf| - HEADER_SIZE < 1 {
        assert buf + [] == buf;
        return 0;
      }
      room := Min(target - |buf| - HEADER_SIZE, MAX_PAYLOAD);
      var frame := BuildPadding(room);
      buf := buf + frame;
    }

    method PickTarget(draw: nat) returns (target: int)
      ensures target == C.Target(cfg, draw)
    {
      var span := cfg.maxPadded - cfg.minPadded;
      target := cfg.minPadded;
      if span > 0 {
        target := target + draw % (span + 1);
      }
    }

    /** Writes the buffer to the inner connection and empties it, whatever the outcome. */
    method SendBuf() returns (error: Option<Error>)
      requires inner.Valid() && !inner.closed
      modifies this`buf, this`totalBytes, this`totalFlushes, inner.session`send, inner.outbound
      ensures var s := X.Send(old(inner.session.send), old(buf));
              Emitted(s) && error == s.error
      ensures buf == [] && totalBytes == old(totalBytes) + |old(buf)| && totalFlushes == old(totalFlushes) + 1
    {
      var n;
      n, error := inner.Write(buf);
      totalBytes, totalFlushes := totalBytes + |buf|, totalFlushes + 1;
      buf := [];
    }

    /** One tick of the cover loop. */
    method CoverTick(draw: nat, stopped: bool)
      requires Valid()
      modifies this, inner.session`send, inner.outbound
      ensures Valid() && Performed(C.CoverTick(old(View()), draw, stopped))
      ensures C.Sound(old(View())) ==> C.Sound(View())
    {
      hide C.Flush, C.Sound;
      if C.Sound(View()) {
        C.CoverSound(View(), draw, stopped);
      }
      if closed || |buf| != 0 {
        assert inner.outbound.data + [] == inner.outbound.data;
        return;
      }
      var _ := FlushLocked(true, draw, stopped);
    }

    method Close(stopped: bool)
      requires Valid()
      modifies this, inner.session`send, inner.outbound, inner`closed
      ensures Valid() && Performed(C.Close(old(View()), stopped))
      ensures C.Sound(old(View())) ==> C.Sound(View())
      ensures closed && inner.closed
    {
      hide C.Sound, X.Send;
      if C.Sound(View()) {
        C.CloseSound(View(), stopped);
      }
      assert inner.outbound.data + [] == inner.outbound.data;
      if closed {
        return;
      }
      closed := true;
      StopTimer(stopped);
      if |buf| > 0 {
        var _, _ := inner.Write(buf);
        closingBytes := closingBytes + |buf|;
        buf := [];
      }
      inner.Close();
    }

    /** The totals balance: every byte written out was accepted or is padding, but for what still
        waits and what Close wrote out, which they do not count. Every padded flush is a flush, and
        added an eight-byte header and at least one byte. */
    method Stats() returns (flushes: nat, padding: nat, total: nat)
      requires C.Sound(View())
      ensures total + |buf| + closingBytes == accepted + padding + HEADER_SIZE * paddedFlushes
      ensures paddedFlushes <= flushes && paddedFlushes <= padding
      ensures flushes == totalFlushes && padding == totalPadding && total == totalBytes
    {
      return totalFlushes, totalPadding, totalBytes;
    }
  }

  lemma FlushSteps(c: C.Coal, pureCover: bool, draw: nat, stopped: bool)
    ensures var s := C.StopTimer(c, stopped);
            && s.timer.None?
            && C.Flush(c, pureCover, draw, stopped) ==
               if s.buf == [] && !pureCover then C.Outcome(s, None, None) else C.Flush(s, true, draw, false)
  {
  }

  /** A PADDING frame with a zero payload, built in place. */
  method BuildPadding(room: nat) returns (frame: bytes)
    requires 1 <= room <= MAX_PAYLOAD
    ensures frame == Encode(C.PadFrame(room))
  {
    var a := new byte[HEADER_SIZE + room](_ => 0);
    a[0] := PROTOCOL_VERSION;
    a[1] := TYPE_PADDING;
    StoreU16(a, 6, room);
    frame := a[..];
    assert frame[..HEADER_SIZE] == Header(C.PadFrame(room));
  }
}
