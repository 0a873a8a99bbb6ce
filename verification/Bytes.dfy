/** Bytes, fixed-width big-endian integers, and lists of byte strings. */
module Bytes {

  datatype Option<+T> = None | Some(value: T)

  type byte = b: int | 0 <= b < 0x100
  type u16 = n: int | 0 <= n < 0x1_0000
  type u32 = n: int | 0 <= n < 0x1_0000_0000
  type u64 = n: int | 0 <= n < 0x1_0000_0000_0000_0000

  type bytes = seq<byte>

  function Min(a: int, b: int): int {
    if a <= b then a else b
  }

  // Big-endian encodings, most significant byte first.

  function PutU16(n: u16): (s: bytes)
    ensures |s| == 2
  {
    [n / 0x100, n % 0x100]
  }

  function GetU16(s: bytes): u16
    requires |s| == 2
  {
    s[0] as int * 0x100 + s[1] as int
  }

  function PutU32(n: u32): (s: bytes)
    ensures |s| == 4
  {
    PutU16(n / 0x1_0000) + PutU16(n % 0x1_0000)
  }

  function GetU32(s: bytes): u32
    requires |s| == 4
  {
    GetU16(s[..2]) as int * 0x1_0000 + GetU16(s[2..]) as int
  }

  function PutU64(n: u64): (s: bytes)
    ensures |s| == 8
  {
    PutU32(n / 0x1_0000_0000) + PutU32(n % 0x1_0000_0000)
  }

  lemma U16RoundTrip(n: u16, s: bytes)
    requires |s| == 2
    ensures GetU16(PutU16(n)) == n
    ensures PutU16(GetU16(s)) == s
  {
  }

  lemma U32RoundTrip(n: u32, s: bytes)
    requires |s| == 4
    ensures GetU32(PutU32(n)) == n
    ensures PutU32(GetU32(s)) == s
  {
  }

  /** The most significant byte comes first. */
  lemma BigEndian(m: u16, n: u32)
    ensures m == PutU16(m)[0] as int * 0x100 + PutU16(m)[1] as int
    ensures var s := PutU32(n);
            n == ((s[0] as int * 0x100 + s[1] as int) * 0x100 + s[2] as int) * 0x100 + s[3] as int
  {
  }

  lemma PutU64Injective(m: u64, n: u64)
    requires PutU64(m) == PutU64(n)
    ensures m == n
  {
    var hm, lm, hn, ln := m / 0x1_0000_0000, m % 0x1_0000_0000, n / 0x1_0000_0000, n % 0x1_0000_0000;
    assert PutU64(m)[..4] == PutU32(hm) && PutU64(m)[4..] == PutU32(lm);
    assert PutU64(n)[..4] == PutU32(hn) && PutU64(n)[4..] == PutU32(ln);
    U32RoundTrip(hm, PutU32(0));
    U32RoundTrip(lm, PutU32(0));
    U32RoundTrip(hn, PutU32(0));
    U32RoundTrip(ln, PutU32(0));
  }

  // Concatenation of a list of sequences.

  function Concat<T>(ss: seq<seq<T>>): seq<T> {
    if ss == [] then [] else ss[0] + Concat(ss[1..])
  }

  lemma {:induction false} ConcatAppend<T>(ss: seq<seq<T>>, ts: seq<seq<T>>)
    ensures Concat(ss + ts) == Concat(ss) + Concat(ts)
  {
    if ss == [] {
      assert ss + ts == ts;
    } else {
      ConcatAppend(ss[1..], ts);
      assert (ss + ts)[1..] == ss[1..] + ts;
      assert Concat(ss + ts) == ss[0] + Concat(ss[1..] + ts);
    }
  }

  lemma Assoc<T>(a: seq<T>, b: seq<T>, c: seq<T>)
    ensures a + (b + c) == (a + b) + c
  {
  }

  lemma ConcatOne<T>(s: seq<T>)
    ensures Concat([s]) == s
  {
  }

  lemma ConcatSnoc<T>(ss: seq<seq<T>>, s: seq<T>)
    ensures Concat(ss + [s]) == Concat(ss) + s
  {
    ConcatAppend(ss, [s]);
    ConcatOne(s);
  }
}
