/** Keeping the download:upload byte ratio near its target with padding. The ratio arithmetic, done
    in floating point by the program, is done here in exact reals. */
module Asymmetry {
  import opened Bytes
  import N = Network
  import E = Endpoints

  const MAX_CHUNK := 8192

  /** Conversion of a real to an integer, toward zero. */
  function Truncate(x: real): int {
    if x >= 0.0 then x.Floor else -(-x).Floor
  }

  /** The bytes counted in each direction. */
  datatype Counts = Counts(up: nat, down: nat)

  /** Padding bytes for each direction. */
  datatype Need = Need(down: nat, up: nat)

  const NONE := Need(0, 0)

  function AtLeastZero(n: int): nat {
    if n < 0 then 0 else n
  }

  function Needed(c: Counts, target: real, tolerance: real): Need
    requires target > 0.0
  {
    if c.up == 0 then NONE
    else Chosen(c, Ratio(c), Low(target, tolerance), High(target, tolerance), IdealDown(c, target), IdealUp(c, target))
  }

  function Ratio(c: Counts): real
    requires c.up > 0
  {
    c.down as real / c.up as real
  }

  function Low(target: real, tolerance: real): real {
    target * (1.0 - tolerance)
  }

  function High(target: real, tolerance: real): real {
    target * (1.0 + tolerance)
  }

  function IdealDown(c: Counts, target: real): real {
    target * c.up as real
  }

  function IdealUp(c: Counts, target: real): real
    requires target > 0.0
  {
    c.down as real / target
  }

  /** The padding for a ratio and a band, and the counters that would meet the target. */
  function Chosen(c: Counts, ratio: real, low: real, high: real, idealDown: real, idealUp: real): Need {
    if low <= ratio <= high then NONE
    else if ratio < low then Need(AtLeastZero(Truncate(idealDown - c.down as real)), 0)
    else Need(0, AtLeastZero(Truncate(idealUp - c.up as real)))
  }

  function Charged(c: Counts, n: Need): Counts {
    Counts(c.up + n.up, c.down + n.down)
  }

  // ---------- What the padding achieves ----------

  lemma TruncateWithinOne(x: real)
    ensures x >= 0.0 ==> x - 1.0 < Truncate(x) as real <= x
    ensures x < 1.0 ==> AtLeastZero(Truncate(x)) == 0
  {
  }

  /** Outside the tolerated band the side that has too little is padded, and only that one: its counter
      ends within one byte below the value that meets the target, and never beyond it. Inside the band,
      and before anything went up, nothing is padded. */
  lemma PaddingLandsOnTarget(c: Counts, target: real, tolerance: real)
    requires target > 0.0 && tolerance >= 0.0
    ensures var n := Needed(c, target, tolerance);
            var d := Charged(c, n);
            var up, down := c.up as real, c.down as real;
            && (c.up > 0 && down < target * (1.0 - tolerance) * up ==>
                  d.up == c.up && target * up - 1.0 < d.down as real <= target * up)
            && (c.up > 0 && down > target * (1.0 + tolerance) * up ==>
                  d.down == c.down && down / target - 1.0 < d.up as real <= down / target)
            && (c.up == 0 || target * (1.0 - tolerance) * up <= down <= target * (1.0 + tolerance) * up ==>
                  n == NONE)
  {
    if c.up > 0 {
      Lands(c, target, tolerance);
    }
  }

  predicate TooLittleDown(c: Counts, target: real, tolerance: real) {
    (c.down as real) < target * (1.0 - tolerance) * c.up as real
  }

  predicate TooMuchDown(c: Counts, target: real, tolerance: real) {
    c.down as real > target * (1.0 + tolerance) * c.up as real
  }

  lemma Lands(c: Counts, target: real, tolerance: real)
    requires target > 0.0 && tolerance >= 0.0 && c.up > 0
    ensures var n := Needed(c, target, tolerance);
            var d := Charged(c, n);
            && (TooLittleDown(c, target, tolerance) ==>
                  d.up == c.up && IdealDown(c, target) - 1.0 < d.down as real <= IdealDown(c, target))
            && (TooMuchDown(c, target, tolerance) ==>
                  d.down == c.down && IdealUp(c, target) - 1.0 < d.up as real <= IdealUp(c, target))
            && (!TooLittleDown(c, target, tolerance) && !TooMuchDown(c, target, tolerance) ==> n == NONE)
  {
    hide Ratio, Low, High, IdealDown, IdealUp, TooLittleDown, TooMuchDown;
    BelowMeans(c, target, tolerance);
    AboveMeans(c, target, tolerance);
    ChosenLands(c, Ratio(c), Low(target, tolerance), High(target, tolerance),
                IdealDown(c, target), IdealUp(c, target));
  }

  lemma BelowMeans(c: Counts, target: real, tolerance: real)
    requires target > 0.0 && tolerance >= 0.0 && c.up > 0
    ensures TooLittleDown(c, target, tolerance) <==> Ratio(c) < Low(target, tolerance)
    ensures TooLittleDown(c, target, tolerance) ==> (c.down as real) < IdealDown(c, target)
  {
    RatioOrder(c.down as real, c.up as real, target * (1.0 - tolerance));
    Scaled(target * (1.0 - tolerance), target, c.up as real);
  }

  lemma AboveMeans(c: Counts, target: real, tolerance: real)
    requires target > 0.0 && tolerance >= 0.0 && c.up > 0
    ensures TooMuchDown(c, target, tolerance) <==> Ratio(c) > High(target, tolerance)
    ensures TooMuchDown(c, target, tolerance) ==> (c.up as real) < IdealUp(c, target)
    ensures Low(target, tolerance) <= High(target, tolerance)
  {
    RatioOrder(c.down as real, c.up as real, target * (1.0 + tolerance));
    Scaled(target, target * (1.0 + tolerance), c.up as real);
    RatioOrder(c.down as real, target, c.up as real);
  }

  lemma ChosenLands(c: Counts, ratio: real, low: real, high: real, idealDown: real, idealUp: real)
    ensures var d := Charged(c, Chosen(c, ratio, low, high, idealDown, idealUp));
            && (ratio < low && c.down as real < idealDown ==>
                  d.up == c.up && idealDown - 1.0 < d.down as real <= idealDown)
            && (ratio > high && ratio >= low && c.up as real < idealUp ==>
                  d.down == c.down && idealUp - 1.0 < d.up as real <= idealUp)
  {
    TruncateWithinOne(idealDown - c.down as real);
    TruncateWithinOne(idealUp - c.up as real);
  }

  lemma Scaled(a: real, b: real, up: real)
    requires a <= b && up > 0.0
    ensures a * up <= b * up
  {
  }

  lemma RatioOrder(a: real, b: real, t: real)
    requires b > 0.0
    ensures a / b < t <==> a < t * b
    ensures a / b > t <==> a > t * b
  {
    assert a == (a / b) * b;
  }

  lemma OneWay(c: Counts, target: real, tolerance: real)
    requires target > 0.0 && tolerance >= 0.0
    ensures var n := Needed(c, target, tolerance);
            n.down == 0 || n.up == 0
  {
  }

  /** One pass reaches a fixpoint: charged with its own padding, the enforcer asks for no more. */
  lemma PaddingIsFixpoint(c: Counts, target: real, tolerance: real)
    requires target > 0.0 && tolerance >= 0.0
    ensures Needed(Charged(c, Needed(c, target, tolerance)), target, tolerance) == NONE
  {
    var n := Needed(c, target, tolerance);
    var d := Charged(c, n);
    PaddingLandsOnTarget(c, target, tolerance);
    if n.down > 0 {
      TruncateWithinOne(target * d.up as real - d.down as real);
      NotAbove(d, target, tolerance);
    } else if n.up > 0 {
      assert d.up as real <= d.down as real / target;
      TruncateWithinOne(d.down as real / target - d.up as real);
      NotBelow(d, target, tolerance);
    }
  }

  lemma NotAbove(d: Counts, target: real, tolerance: real)
    requires target > 0.0 && tolerance >= 0.0 && d.up > 0
    requires d.down as real <= target * d.up as real
    ensures d.down as real / d.up as real <= target * (1.0 + tolerance)
  {
  }

  lemma NotBelow(d: Counts, target: real, tolerance: real)
    requires target > 0.0 && tolerance >= 0.0 && d.up > 0
    requires d.up as real <= d.down as real / target
    ensures d.down as real / d.up as real >= target * (1.0 - tolerance)
  {
  }

  // ---------- Sending it in chunks ----------

  function Sum(ns: seq<nat>): nat {
    if ns == [] then 0 else Sum(ns[..|ns| - 1]) + ns[|ns| - 1]
  }

  lemma SumSnoc(ns: seq<nat>, n: nat)
    ensures Sum(ns + [n]) == Sum(ns) + n
  {
  }

  predicate ChunkSizes(ns: seq<nat>) {
    forall i :: 0 <= i < |ns| ==> 1 <= ns[i] <= MAX_CHUNK
  }

  class AsymmetryEnforcer {
    const targetRatio: real
    var upBytes: nat
    var downBytes: nat

    function View(): Counts
      reads this
    {
      Counts(upBytes, downBytes)
    }

    ghost predicate Valid() {
      targetRatio > 0.0
    }

    constructor (ratio: real)
      ensures Valid() && View() == Counts(0, 0)
      ensures targetRatio == if ratio <= 0.0 then 5.0 else ratio
    {
      targetRatio := if ratio <= 0.0 then 5.0 else ratio;
      upBytes, downBytes := 0, 0;
    }

    method RecordUp(n: nat)
      modifies this
      ensures View() == Charged(old(View()), Need(0, n))
    {
      upBytes := upBytes + n;
    }

    method RecordDown(n: nat)
      modifies this
      ensures View() == Charged(old(View()), Need(n, 0))
    {
      downBytes := downBytes + n;
    }

    method PaddingNeeded(tolerance: real) returns (downPad: nat, upPad: nat)
      requires Valid()
      ensures Need(downPad, upPad) == Needed(View(), targetRatio, tolerance)
    {
      if upBytes == 0 && downBytes == 0 {
        return 0, 0;
      }
      if upBytes == 0 {
        return 0, 0;
      }
      var current := downBytes as real / upBytes as real;
      var low := targetRatio * (1.0 - tolerance);
      var high := targetRatio * (1.0 + tolerance);
      if low <= current <= high {
        return 0, 0;
      }
      if current < low {
        var need := Truncate(targetRatio * upBytes as real - downBytes as real);
        return AtLeastZero(need), 0;
      }
      var need := Truncate(downBytes as real / targetRatio - upBytes as real);
      return 0, AtLeastZero(need);
    }
  }

  /** The acts send padding of the sizes `sent`, one after the other; the last act may have been
      refused, and is then not among them. */
  predicate Pads(acts: seq<N.Action>, sent: seq<nat>) {
    && |sent| <= |acts| <= |sent| + 1
    && (forall i :: 0 <= i < |acts| ==> PadAct(acts[i]))
    && (forall i :: 0 <= i < |sent| ==> |acts[i].act.payload| == sent[i])
  }

  lemma NothingSent()
    ensures Pads([], []) && ChunkSizes([]) && Sum([]) == 0
  {
  }

  predicate PadAct(x: N.Action) {
    x.byA && x.act.Pad? && 1 <= |x.act.payload| <= MAX_CHUNK
  }

  /** One more act, whether its frame is accepted or refused. */
  lemma PadsSnoc(acts: seq<N.Action>, sent: seq<nat>, act: N.Action, chunk: nat)
    requires Pads(acts, sent) && |acts| == |sent| && ChunkSizes(sent)
    requires PadAct(act) && |act.act.payload| == chunk
    ensures Pads(acts + [act], sent)
    ensures Pads(acts + [act], sent + [chunk]) && ChunkSizes(sent + [chunk])
    ensures Sum(sent + [chunk]) == Sum(sent) + chunk
  {
    hide PadAct, Sum;
    assert 1 <= chunk <= MAX_CHUNK by { PadSize(act); }
    SumSnoc(sent, chunk);
  }

  lemma PadSize(act: N.Action)
    requires PadAct(act)
    ensures act.act.Pad? && 1 <= |act.act.payload| <= MAX_CHUNK
  {
  }

  /** One tick of the padding loop on a live connection: a run of padding acts. Whether or not a write
      fails on the way, exactly the bytes sent are charged, all to the direction that needs them and in
      chunks the connection accepts; if no write fails, they are all the padding asked for, and the
      next tick has nothing to do. */
  method PaddingTick(asym: AsymmetryEnforcer, conn: E.Conn, tolerance: real, ghost peer: E.Peer)
    returns (ok: bool, ghost sent: seq<nat>, ghost acts: seq<N.Action>)
    requires asym.Valid() && tolerance >= 0.0 && conn.Valid()
    modifies asym, conn.enc.w, conn.enc.w.inner.session`send, conn.enc.w.inner.outbound
    ensures conn.Valid() && conn.World(peer) == N.Run(old(conn.World(peer)), acts)
    ensures Pads(acts, sent) && ChunkSizes(sent) && (ok ==> |acts| == |sent|)
    ensures var need := Needed(old(asym.View()), asym.targetRatio, tolerance);
            var total := Sum(sent);
            && total <= need.down + need.up
            && asym.View() == Charged(old(asym.View()), if need.down > 0 then Need(total, 0) else Need(0, total))
            && (ok ==> total == need.down + need.up && asym.View() == Charged(old(asym.View()), need)
                       && Needed(asym.View(), asym.targetRatio, tolerance) == NONE)
  {
    hide Needed, Sum, Pads, ChunkSizes, N.Run, N.StepA, E.Conn.Valid, E.Conn.World, N.Put;
    NothingSent();
    ghost var before, world := asym.View(), conn.World(peer);
    ghost var need := Needed(before, asym.targetRatio, tolerance);
    OneWay(before, asym.targetRatio, tolerance);
    PaddingIsFixpoint(before, asym.targetRatio, tolerance);
    var downPad, upPad := asym.PaddingNeeded(tolerance);
    var pad := downPad + upPad;
    sent, acts := [], [];
    N.RunEmpty(world);
    while pad > 0
      invariant pad == downPad + upPad && downPad >= 0 && upPad >= 0
      invariant conn.Valid() && conn.World(peer) == N.Run(world, acts)
      invariant Pads(acts, sent) && ChunkSizes(sent) && |acts| == |sent|
      invariant need.down == 0 || need.up == 0
      invariant if need.down > 0 then upPad == 0 && downPad + Sum(sent) == need.down
                else downPad == 0 && upPad + Sum(sent) == need.up
      invariant asym.View() == Charged(before, if need.down > 0 then Need(Sum(sent), 0) else Need(0, Sum(sent)))
    {
      var chunk := if pad > MAX_CHUNK then MAX_CHUNK else pad;
      var random, e := Draw(chunk);
      ghost var act := N.Action(true, N.Pad(random, e));
      N.RunSnoc(world, acts, act);
      var error := conn.SendPadding(chunk, random, e, peer);
      PadsSnoc(acts, sent, act, chunk);
      acts := acts + [act];
      if error.Some? {
        return false, sent, acts;
      }
      sent := sent + [chunk];
      if downPad > 0 {
        asym.RecordDown(chunk);
        downPad := downPad - chunk;
      } else {
        asym.RecordUp(chunk);
        upPad := upPad - chunk;
      }
      pad := pad - chunk;
    }
    ok := true;
  }

  /** `n` random bytes, and what the coalescer will draw. */
  method Draw(n: nat) returns (random: bytes, e: N.Env)
    ensures |random| == n
  {
    assert |seq(n, _ => 0 as byte)| == n;
    random :| |random| == n;
    e := *;
  }
}
