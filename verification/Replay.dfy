/** The 64-nonce sliding window for replay protection, with its bitmap of machine-word bits, proved
    against the ideal window that remembers every accepted nonce (the scheme of section 3.4.3 of
    RFC 4303). */
module Replay {
  import opened Bytes

  const WINDOW_SIZE := 64

  datatype Window = Window(head: u64, bitmap: bv64, hasAny: bool)

  const ZERO := Window(0, 0, false)

  // ---------- Bits of a machine word ----------

  predicate BitAt(bitmap: bv64, i: bv7)
    requires i < 64
  {
    (bitmap >> i) & 1 == 1
  }

  function ShiftIn(bitmap: bv64, s: bv7): bv64
    requires s < 64
  {
    SetLow(Up(bitmap, s))
  }

  function Up(bitmap: bv64, s: bv7): bv64
    requires s < 64
  {
    bitmap << s
  }

  function SetLow(bitmap: bv64): bv64 {
    bitmap | 1
  }

  function SetBit(bitmap: bv64, d: bv7): bv64
    requires d < 64
  {
    bitmap | ((1 as bv64) << d)
  }

  function TestBit(bitmap: bv64, d: bv7): bool
    requires d < 64
  {
    bitmap & ((1 as bv64) << d) != 0
  }

  // Shifting moves every bit up. The two sides are named, so that the one step about shifts stands
  // alone.

  predicate ShiftedBit(x: bv64, s: bv7, i: bv7)
    requires s <= i < 64
  {
    ((x << s) >> i) & 1 == 1
  }

  predicate SourceBit(x: bv64, s: bv7, i: bv7)
    requires s <= i < 64
  {
    (x >> (i - s)) & 1 == 1
  }

  lemma ShiftRaw(x: bv64, s: bv7, i: bv7)
    requires s <= i < 64
    ensures ((x << s) >> i) & 1 == 1 <==> (x >> (i - s)) & 1 == 1
  {
  }

  lemma ShiftedIsSource(x: bv64, s: bv7, i: bv7)
    requires s <= i < 64
    ensures ShiftedBit(x, s, i) <==> SourceBit(x, s, i)
  {
    ShiftRaw(x, s, i);
  }

  lemma UpIsShifted(x: bv64, s: bv7, i: bv7)
    requires s <= i < 64
    ensures BitAt(Up(x, s), i) <==> ShiftedBit(x, s, i)
  {
  }

  lemma BitIsSource(x: bv64, s: bv7, i: bv7)
    requires s <= i < 64
    ensures SourceBit(x, s, i) <==> BitAt(x, i - s)
  {
  }

  lemma ShiftBack(x: bv64, s: bv7, i: bv7)
    requires s <= i < 64
    ensures BitAt(Up(x, s), i) <==> BitAt(x, i - s)
  {
    hide BitAt, Up, ShiftedBit, SourceBit;
    UpIsShifted(x, s, i);
    ShiftedIsSource(x, s, i);
    BitIsSource(x, s, i);
  }

  lemma ShiftedAway(x: bv64, s: bv7, i: bv7)
    requires i < s < 64
    ensures !BitAt(Up(x, s), i)
  {
  }

  lemma LowBit(y: bv64, i: bv7)
    requires i < 64
    ensures BitAt(SetLow(y), i) <==> i == 0 || BitAt(y, i)
  {
  }

  /** Shifting in moves every bit up, clears the ones below, and sets bit 0. */
  lemma ShiftInBits(bitmap: bv64, s: bv7, i: bv7)
    requires 0 < s < 64 && i < 64
    ensures BitAt(ShiftIn(bitmap, s), i) <==> i == 0 || (i >= s && BitAt(bitmap, i - s))
  {
    hide BitAt, Up, SetLow;
    LowBit(Up(bitmap, s), i);
    if i >= s {
      ShiftBack(bitmap, s, i);
    } else {
      ShiftedAway(bitmap, s, i);
    }
  }

  lemma SetBits(bitmap: bv64, d: bv7, i: bv7)
    requires d < 64 && i < 64
    ensures BitAt(SetBit(bitmap, d), i) <==> i == d || BitAt(bitmap, i)
  {
  }

  lemma TestBits(bitmap: bv64, d: bv7)
    requires d < 64
    ensures TestBit(bitmap, d) <==> BitAt(bitmap, d)
  {
  }

  // ---------- Offsets as machine words ----------

  /** The machine word for the offset `i`. */
  function W(i: nat): (w: bv7)
    requires i < 64
    ensures w < 64
    decreases i, 0
  {
    if i == 0 then 0
    else
      WordValue(i - 1);
      WordSuccessor(W(i - 1));
      W(i - 1) + 1
  }

  lemma {:induction false} WordValue(i: nat)
    requires i < 64
    ensures W(i) as int == i
    decreases i, 1
  {
    if i > 0 {
      WordValue(i - 1);
      WordSuccessor(W(i - 1));
    }
  }

  lemma WordSuccessor(x: bv7)
    requires x as int < 63
    ensures (x + 1) as int == x as int + 1
    ensures x + 1 < 64
  {
  }

  function Marked(w: Window, n: u64): (Window, bool) {
    if !w.hasAny then (Window(n, 1, true), true)
    else if n > w.head then
      var shift := n - w.head;
      (Window(n, if shift >= WINDOW_SIZE then 1 else ShiftIn(w.bitmap, W(shift)), true), true)
    else
      var diff := w.head - n;
      if diff >= WINDOW_SIZE then (w, false)
      else if TestBit(w.bitmap, W(diff)) then (w, false)
      else (w.(bitmap := SetBit(w.bitmap, W(diff))), true)
  }

  // ---------- The ideal window ----------

  /** Accept a nonce unless it was accepted before, or is 64 or more behind the highest accepted. */
  ghost predicate Fresh(seen: set<u64>, n: u64) {
    n !in seen && forall m :: m in seen ==> m - n < WINDOW_SIZE
  }

  ghost function Remember(seen: set<u64>, n: u64): set<u64> {
    if Fresh(seen, n) then seen + {n} else seen
  }

  predicate Bit(bitmap: bv64, i: nat)
    requires i < 64
  {
    BitAt(bitmap, W(i))
  }

  /** `head` is the highest nonce seen, and bit i is set just when head - i is one of them; no bit
      above `head` is set. */
  ghost predicate Represents(w: Window, seen: set<u64>) {
    if !w.hasAny then seen == {} && w.head == 0
    else
      && w.head in seen
      && (forall m :: m in seen ==> m <= w.head)
      && (forall i: nat :: i < 64 ==> (Bit(w.bitmap, i) <==> i <= w.head && w.head - i in seen))
  }

  lemma WordOrder(i: nat, j: nat)
    requires i < 64 && j < 64
    ensures W(i) < W(j) <==> i < j
    ensures W(i) == W(j) <==> i == j
  {
  }

  lemma BothLessOne(x: bv7, y: bv7)
    ensures (x + 1) - (y + 1) == x - y
  {
  }

  lemma {:induction false} WordMinus(i: nat, j: nat)
    requires j <= i < 64
    ensures W(i) - W(j) == W(i - j)
  {
    if j > 0 {
      WordMinus(i - 1, j - 1);
      BothLessOne(W(i - 1), W(j - 1));
    }
  }

  lemma AdvancedBits(bitmap: bv64, shift: nat, i: nat)
    requires 0 < shift < 64 && i < 64
    ensures Bit(ShiftIn(bitmap, W(shift)), i) <==> i == 0 || (i >= shift && Bit(bitmap, i - shift))
  {
    hide BitAt, ShiftIn;
    WordOrder(0, shift);
    WordOrder(i, 0);
    WordOrder(i, shift);
    if i >= shift {
      WordMinus(i, shift);
    }
    assert W(0) == 0;
    hide W;
    ShiftInBits(bitmap, W(shift), W(i));
  }

  lemma MaskBits(bitmap: bv64, d: nat, i: nat)
    requires d < 64 && i < 64
    ensures Bit(SetBit(bitmap, W(d)), i) <==> i == d || Bit(bitmap, i)
    ensures TestBit(bitmap, W(d)) <==> Bit(bitmap, d)
  {
    hide W, BitAt, SetBit, TestBit;
    WordOrder(i, d);
    SetBits(bitmap, W(d), W(i));
    TestBits(bitmap, W(d));
  }

  lemma OneBit(i: nat)
    requires i < 64
    ensures Bit(1, i) <==> i == 0
  {
  }

  // ---------- One step ----------

  /** Mark accepts exactly the fresh nonces, and keeps representing the nonces accepted so far. */
  lemma MarkIsIdeal(w: Window, seen: set<u64>, n: u64)
    requires Represents(w, seen)
    ensures Marked(w, n).1 <==> Fresh(seen, n)
    ensures Represents(Marked(w, n).0, Remember(seen, n))
  {
    hide Bit, TestBit, SetBit, ShiftIn, W;
    if !w.hasAny {
      FirstNonce(n);
    } else if n > w.head {
      Forward(w, seen, n);
    } else {
      Behind(w, seen, n);
    }
  }

  lemma FirstNonce(n: u64)
    ensures Represents(Window(n, 1, true), {n})
  {
  }

  lemma Forward(w: Window, seen: set<u64>, n: u64)
    requires Represents(w, seen) && w.hasAny && n > w.head
    ensures Marked(w, n).1 && Fresh(seen, n)
    ensures Represents(Marked(w, n).0, seen + {n})
  {
    hide Bit, TestBit, SetBit, ShiftIn, W;
    var shift, w' := n - w.head, Marked(w, n).0;
    forall i: nat | i < 64
      ensures Bit(w'.bitmap, i) <==> i <= n && n - i in seen + {n}
    {
      if shift >= WINDOW_SIZE {
        OneBit(i);
      } else {
        AdvancedBits(w.bitmap, shift, i);
      }
    }
  }

  lemma Behind(w: Window, seen: set<u64>, n: u64)
    requires Represents(w, seen) && w.hasAny && n <= w.head
    ensures Marked(w, n).1 <==> Fresh(seen, n)
    ensures Represents(Marked(w, n).0, Remember(seen, n))
  {
    hide Bit, TestBit, SetBit, ShiftIn, W;
    var diff, w' := w.head - n, Marked(w, n).0;
    if diff < WINDOW_SIZE {
      MaskBits(w.bitmap, diff, diff);
      forall i: nat | i < 64
        ensures Bit(w'.bitmap, i) <==> i <= w.head && w.head - i in Remember(seen, n)
      {
        MaskBits(w.bitmap, diff, i);
      }
    }
  }

  // ---------- Every sequence of nonces ----------

  function Run(w: Window, ns: seq<u64>): seq<bool>
    decreases |ns|
  {
    if ns == [] then [] else [Marked(w, ns[0]).1] + Run(Marked(w, ns[0]).0, ns[1..])
  }

  /** The answers of the ideal window that has seen `seen`. */
  ghost function IdealRun(seen: set<u64>, ns: seq<u64>): seq<bool>
    decreases |ns|
  {
    if ns == [] then [] else [Fresh(seen, ns[0])] + IdealRun(Remember(seen, ns[0]), ns[1..])
  }

  /** For every sequence of 64-bit nonces the window answers as the ideal one. */
  lemma {:induction false} RunIsIdeal(w: Window, seen: set<u64>, ns: seq<u64>)
    requires Represents(w, seen)
    ensures Run(w, ns) == IdealRun(seen, ns)
    decreases |ns|
  {
    if ns != [] {
      MarkIsIdeal(w, seen, ns[0]);
      RunIsIdeal(Marked(w, ns[0]).0, Remember(seen, ns[0]), ns[1..]);
    }
  }

  /** No nonce is accepted twice, whatever comes between. */
  lemma {:induction false} AcceptedOnce(w: Window, seen: set<u64>, ns: seq<u64>, i: nat, j: nat)
    requires Represents(w, seen) && i < j < |ns| && ns[i] == ns[j]
    ensures |Run(w, ns)| == |ns|
    ensures !(Run(w, ns)[i] && Run(w, ns)[j])
    decreases |ns|
  {
    MarkIsIdeal(w, seen, ns[0]);
    var w', seen' := Marked(w, ns[0]).0, Remember(seen, ns[0]);
    if i > 0 {
      AcceptedOnce(w', seen', ns[1..], i - 1, j - 1);
    } else if Fresh(seen, ns[0]) {
      OnceSeenRefused(w', seen', ns[1..], j - 1);
    } else {
      RunLength(w', ns[1..]);
    }
  }

  lemma {:induction false} OnceSeenRefused(w: Window, seen: set<u64>, ns: seq<u64>, j: nat)
    requires Represents(w, seen) && j < |ns| && ns[j] in seen
    ensures |Run(w, ns)| == |ns| && !Run(w, ns)[j]
    decreases |ns|
  {
    MarkIsIdeal(w, seen, ns[0]);
    if j > 0 {
      OnceSeenRefused(Marked(w, ns[0]).0, Remember(seen, ns[0]), ns[1..], j - 1);
    } else {
      RunLength(Marked(w, ns[0]).0, ns[1..]);
    }
  }

  lemma {:induction false} RunLength(w: Window, ns: seq<u64>)
    ensures |Run(w, ns)| == |ns|
    decreases |ns|
  {
    if ns != [] {
      RunLength(Marked(w, ns[0]).0, ns[1..]);
    }
  }

  // ---------- The window object ----------

  class ReplayWindow {
    var head: u64
    var bitmap: bv64
    var hasAny: bool
    ghost var seen: set<u64>

    function View(): Window
      reads this
    {
      Window(head, bitmap, hasAny)
    }

    ghost predicate Valid()
      reads this
    {
      Represents(View(), seen)
    }

    constructor ()
      ensures Valid() && View() == ZERO && seen == {}
    {
      head, bitmap, hasAny := 0, 0, false;
      seen := {};
    }

    method Mark(n: u64) returns (ok: bool)
      requires Valid()
      modifies this
      ensures Valid()
      ensures ok <==> Fresh(old(seen), n)
      ensures seen == if ok then old(seen) + {n} else old(seen)
      ensures (View(), ok) == Marked(old(View()), n)
    {
      MarkIsIdeal(View(), seen, n);
      ghost var before := View();
      hide Bit, TestBit, SetBit, ShiftIn, W;
      if !hasAny {
        hasAny := true;
        head := n;
        bitmap := 1;
        ok := true;
      } else if n > head {
        var shift := n - head;
        bitmap := if shift >= WINDOW_SIZE then 1 else ShiftIn(bitmap, W(shift));
        head := n;
        ok := true;
      } else {
        var diff := head - n;
        ok := diff < WINDOW_SIZE && !TestBit(bitmap, W(diff));
        if ok {
          bitmap := SetBit(bitmap, W(diff));
        }
      }
      assert (View(), ok) == Marked(before, n);
      seen := Remember(seen, n);
    }

    /** The highest nonce ever accepted, or 0 before the first. */
    method Head() returns (h: u64)
      requires Valid()
      ensures seen == {} ==> h == 0
      ensures seen != {} ==> h in seen && forall m :: m in seen ==> m <= h
    {
      h := head;
    }

    method Reset()
      modifies this
      ensures Valid() && View() == ZERO && seen == {}
    {
      head, bitmap, hasAny := 0, 0, false;
      seen := {};
    }
  }
}
