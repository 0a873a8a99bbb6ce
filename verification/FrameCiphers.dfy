/** The sealed framing as the program runs it: a session whose nonces advance, and a connection that
    keeps the opened bytes its readers have not taken yet. */
module FrameCiphers {
  import opened Bytes
  import opened Io
  import X = Crypto

  class Session {
    var send: X.CipherState
    var recv: X.CipherState

    constructor (keys: X.Keys)
      ensures send == keys.send && recv == keys.recv
    {
      send, recv := keys.send, keys.recv;
    }

    method Encrypt(plain: bytes) returns (c: Option<bytes>)
      modifies this`send
      ensures c.None? <==> old(send).Exhausted()
      ensures c.Some? ==> c.value == X.Seal(old(send).key, old(send).nonce, plain) && send == old(send).Next()
      ensures c.None? ==> send == old(send)
    {
      if send.Exhausted() {
        return None;
      }
      c := Some(X.Seal(send.key, send.nonce, plain));
      send := send.Next();
    }

    /** The nonce advances only when the ciphertext opens. */
    method Decrypt(c: bytes) returns (plain: Option<bytes>, error: Option<Error>)
      modifies this`recv
      ensures plain == if old(recv).Exhausted() then None else X.Open(old(recv).key, old(recv).nonce, c)
      ensures recv == if plain.Some? then old(recv).Next() else old(recv)
      ensures error == if plain.Some? then None
                       else if old(recv).Exhausted() then Some(NonceExhausted) else Some(DecryptFailed)
    {
      if recv.Exhausted() {
        return None, Some(NonceExhausted);
      }
      plain := X.Open(recv.key, recv.nonce, c);
      if plain.None? {
        return None, Some(DecryptFailed);
      }
      recv := recv.Next();
      error := None;
    }

    method SendNonce() returns (n: nat)
      ensures n == send.nonce
    {
      n := send.nonce;
    }

    method RecvNonce() returns (n: nat)
      ensures n == recv.nonce
    {
      n := recv.nonce;
    }
  }

  /** `inbound` and `outbound` are the two directions of the inner connection. */
  class FrameCipher {
    const inbound: Wire
    const outbound: Wire
    const session: Session
    var readBuf: bytes
    var closed: bool

    ghost predicate Valid() {
      inbound != outbound && inbound.end == EOF
    }

    /** The receiving half. */
    function Rx(): X.Rx
      reads this, session, inbound
    {
      X.Rx(session.recv, readBuf, inbound.data, closed)
    }

    constructor (inbound: Wire, outbound: Wire, session: Session)
      requires inbound != outbound && inbound.end == EOF
      ensures Valid() && this.inbound == inbound && this.outbound == outbound && this.session == session
      ensures readBuf == [] && !closed
    {
      this.inbound, this.outbound, this.session := inbound, outbound, session;
      readBuf, closed := [], false;
    }

    /** On a closed connection the frame is sealed and then refused by the transport. */
    method Write(p: bytes) returns (n: nat, error: Option<Error>)
      requires Valid()
      modifies session`send, outbound
      ensures var s := X.Send(old(session.send), p);
              && session.send == s.cs
              && error == (if closed && s.onWire != [] then Some(ClosedPipe) else s.error)
              && outbound.data == old(outbound.data) + if closed then [] else s.onWire
      ensures n == if error.None? then |p| else 0
    {
      assert outbound.data + [] == outbound.data;
      if |p| == 0 {
        return 0, None;
      }
      if |p| > X.MAX_SEALED_PAYLOAD {
        return 0, Some(SealedTooLong);
      }
      var ciphertext := session.Encrypt(p);
      if ciphertext.None? {
        return 0, Some(NonceExhausted);
      }
      if closed {
        return 0, Some(ClosedPipe);
      }
      outbound.Write(PutU32(|ciphertext.value|) + ciphertext.value);
      return |p|, None;
    }

    /** Takes the next sealed frame off the inner connection and opens it. */
    method Open() returns (plain: Option<bytes>, error: Option<Error>)
      requires Valid()
      modifies session`recv, inbound
      ensures var o := X.OpenNext(old(session.recv), old(inbound.data));
              && inbound.data == o.rest
              && (plain.Some? <==> o.Opened?)
              && (plain.Some? ==> plain.value == o.plain && error.None? && session.recv == old(session.recv).Next())
              && (plain.None? ==> error == Some(o.error) && session.recv == old(session.recv))
    {
      ghost var wire := inbound.data;
      var hdr := new byte[4];
      var n, e := ReadFull(inbound, hdr);
      if e.Some? {
        return None, e;
      }
      assert hdr[..] == hdr[..4] == wire[..4];
      var length := GetU32(hdr[..]);
      if length == 0 {
        return None, Some(ZeroLengthFrame);
      }
      if length > X.MAX_SEALED_PAYLOAD + 64 {
        return None, Some(FrameTooLong);
      }
      var ciphertext := new byte[length];
      n, e := ReadFull(inbound, ciphertext);
      if e.Some? {
        return None, Some(ShortCiphertext);
      }
      assert ciphertext[..] == ciphertext[..length] == wire[4..4 + length];
      assert inbound.data == wire[4 + length..];
      plain, error := session.Decrypt(ciphertext[..]);
    }

    /** Reads into `p` from index `lo` on. */
    method Read(p: array<byte>, lo: nat) returns (n: nat, error: Option<Error>)
      requires Valid() && lo <= p.Length
      modifies this`readBuf, session`recv, inbound, p
      ensures var r := X.Read(old(Rx()), p.Length - lo);
              && n == |r.got| && lo + n <= p.Length
              && p[..lo] == old(p[..lo]) && p[lo..lo + n] == r.got
              && error == r.error && Rx() == r.rx
    {
      hide X.OpenNext;
      n, error := 0, None;
      if p.Length == lo {
        return;
      }
      if |readBuf| > 0 {
        n := Min(p.Length - lo, |readBuf|);
        forall i | 0 <= i < n {
          p[lo + i] := readBuf[i];
        }
        assert p[lo..lo + n] == readBuf[..n];
        readBuf := readBuf[n..];
        return;
      }
      if closed {
        return 0, Some(ClosedPipe);
      }
      var plain, e := Open();
      if plain.None? {
        return 0, e;
      }
      n := Min(p.Length - lo, |plain.value|);
      forall i | 0 <= i < n {
        p[lo + i] := plain.value[i];
      }
      assert p[lo..lo + n] == plain.value[..n];
      readBuf := plain.value[n..];
    }

    /** Closes the inner connection, in both directions. What is open already can still be read. */
    method Close()
      modifies this`closed
      ensures closed && Rx() == old(Rx()).(closed := true)
    {
      closed := true;
    }

    /** Reads until `p` is full. */
    method Fill(p: array<byte>) returns (n: nat, error: Option<Error>)
      requires Valid()
      modifies this`readBuf, session`recv, inbound, p
      ensures var r := X.ReadFull(old(Rx()), p.Length);
              n == |r.got| && n <= p.Length && p[..n] == r.got && error == r.error && Rx() == r.rx
    {
      hide X.Read, X.ReadFull, FrameCipher.Rx, Continues;
      ghost var whole := X.ReadFull(Rx(), p.Length);
      FillStart(whole);
      assert p[..0] == [];
      n := 0;
      while n < p.Length
        invariant n <= p.Length
        invariant Continues(whole, p[..n], X.ReadFull(Rx(), p.Length - n))
        decreases |Rx().readBuf| + |Rx().wire|
      {
        FillOnce(whole, p[..n], Rx(), p.Length - n);
        ghost var before := p[..n];
        ghost var r := X.Read(Rx(), p.Length - n);
        var k, e := Read(p, n);
        if e.Some? {
          return n, if e == Some(EOF) && n > 0 then Some(UnexpectedEOF) else e;
        }
        assert p[..n + k] == before + p[n..n + k] == before + r.got;
        n := n + k;
      }
      FillEnd(whole, p[..n], Rx());
      error := None;
    }
  }

  /** `more` completes a full read of which `got` has been read already. */
  predicate Continues(whole: X.Pulled, got: bytes, more: X.Pulled) {
    && whole.got == got + more.got && whole.rx == more.rx
    && whole.error == if more.error == Some(EOF) && got != [] then Some(UnexpectedEOF) else more.error
  }

  lemma FillStart(whole: X.Pulled)
    ensures Continues(whole, [], whole)
  {
  }

  lemma FillEnd(whole: X.Pulled, got: bytes, rx: X.Rx)
    requires Continues(whole, got, X.ReadFull(rx, 0))
    ensures whole == X.Pulled(got, None, rx)
  {
    assert got + [] == got;
  }

  lemma FillOnce(whole: X.Pulled, got: bytes, rx: X.Rx, n: nat)
    requires n > 0 && Continues(whole, got, X.ReadFull(rx, n))
    ensures var r := X.Read(rx, n);
            if r.error.Some? then
              whole == X.Pulled(got, if r.error == Some(EOF) && got != [] then Some(UnexpectedEOF) else r.error, r.rx)
            else Continues(whole, got + r.got, X.ReadFull(r.rx, n - |r.got|))
  {
    hide X.Read;
    var r := X.Read(rx, n);
    if r.error.Some? {
      assert got + [] == got;
    } else {
      var more := X.ReadFull(r.rx, n - |r.got|);
      assert got + (r.got + more.got) == (got + r.got) + more.got;
    }
  }
}
