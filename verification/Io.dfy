/** Errors, and the byte transports that the layers read from and write to. */
module Io {
  import opened Bytes

  datatype Error =
    | EOF
    | UnexpectedEOF
    | ClosedPipe
    // sealed framing
    | SealedTooLong
    | NonceExhausted
    | ZeroLengthFrame
    | FrameTooLong
    | ShortCiphertext
    | DecryptFailed
    // multiplexer
    | PayloadTooLong
    | UnsupportedVersion
    | PayloadRead(cause: Error)
    | OpenFailed(cause: Error)
    | PaddingOutOfRange
    | StreamClosed
    // transports
    | ConnectionLost

  /** A byte stream between two parties. `data` is everything written to it and not yet read, or,
      for a reader that only sees one end, everything that will still arrive before the stream
      ends with the error `end`. How many bytes one Read returns is not determined. `failures` counts
      the writes that failed. */
  class Wire {
    var data: bytes
    const end: Error
    ghost var failures: nat

    constructor (data: bytes, end: Error)
      ensures this.data == data && this.end == end && failures == 0
    {
      this.data, this.end := data, end;
      failures := 0;
    }

    method Write(p: bytes)
      modifies this`data
      ensures data == old(data) + p
    {
      data := data + p;
    }

    /** A write that may fail after some of the bytes. */
    method TryWrite(p: bytes) returns (n: nat, ok: bool)
      modifies this
      ensures n <= |p| && data == old(data) + p[..n] && (ok ==> n == |p|)
      ensures failures == old(failures) + if ok then 0 else 1
    {
      ok := *;
      n := |p|;
      if !ok {
        n :| 0 <= n <= |p|;
        failures := failures + 1;
      }
      data := data + p[..n];
    }

    /** Reads into `p` from index `lo` on. */
    method Read(p: array<byte>, lo: nat) returns (n: nat, error: Option<Error>)
      requires lo <= p.Length
      modifies this`data, p
      ensures n <= p.Length - lo && n <= |old(data)|
      ensures p[..] == old(p[..lo]) + old(data)[..n] + old(p[lo + n..])
      ensures data == old(data)[n..]
      ensures error == if lo < p.Length && old(data) == [] then Some(end) else None
      ensures lo < p.Length && old(data) != [] ==> n > 0
    {
      if lo == p.Length {
        return 0, None;
      }
      if data == [] {
        return 0, Some(end);
      }
      var most := Min(p.Length - lo, |data|);
      n :| 1 <= n <= most;
      forall i | 0 <= i < n {
        p[lo + i] := data[i];
      }
      data := data[n..];
      error := None;
    }
  }

  /** What a full read of `n` bytes reports when `got` bytes came before the stream ended. */
  function FullError(n: nat, got: nat, end: Error): Option<Error> {
    if got == n then None
    else if got > 0 && end == EOF then Some(UnexpectedEOF)
    else Some(end)
  }

  /** Fills `p`. The outcome does not depend on how the bytes are split across reads. */
  method ReadFull(r: Wire, p: array<byte>) returns (n: nat, error: Option<Error>)
    modifies r`data, p
    ensures n == Min(p.Length, |old(r.data)|)
    ensures p[..n] == old(r.data)[..n] && r.data == old(r.data)[n..]
    ensures error == FullError(p.Length, n, r.end)
  {
    n := 0;
    while n < p.Length
      invariant n <= p.Length && n <= |old(r.data)|
      invariant p[..n] == old(r.data)[..n] && r.data == old(r.data)[n..]
      decreases p.Length - n
    {
      var k, e := r.Read(p, n);
      if e.Some? {
        return n, FullError(p.Length, n, r.end);
      }
      n := n + k;
    }
    error := None;
  }

  /** Stores the big-endian encoding of `n` in `p` from index `at` on. */
  method StoreU16(p: array<byte>, at: nat, n: u16)
    requires at + 2 <= p.Length
    modifies p
    ensures p[..] == old(p[..at]) + PutU16(n) + old(p[at + 2..])
  {
    p[at], p[at + 1] := n / 0x100, n % 0x100;
  }

  method StoreU32(p: array<byte>, at: nat, n: u32)
    requires at + 4 <= p.Length
    modifies p
    ensures p[..] == old(p[..at]) + PutU32(n) + old(p[at + 4..])
  {
    StoreU16(p, at, n / 0x1_0000);
    StoreU16(p, at + 2, n % 0x1_0000);
  }
}
