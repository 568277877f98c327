/** Encrypt and Decrypt as they run: loops that fill buffers from readers which may return short. */
module BackupStream {
  import opened Common
  import opened BackupFormat

  /** A byte source. `plan` limits the sizes of the coming reads, so that any sequence of short (even
      empty) reads is possible; once it is used up, reads return as much as they can. An eager source
      reports its end together with its last bytes. */
  class Reader {
    var data: Bytes
    var plan: seq<nat>
    const end: ReadError
    const eager: bool

    constructor (data: Bytes, plan: seq<nat>, end: ReadError, eager: bool)
      ensures this.data == data && this.plan == plan && this.end == end && this.eager == eager
    {
      this.data, this.plan, this.end, this.eager := data, plan, end, eager;
    }

    /** One read into the buffer from the given offset. */
    method Read(buf: array<Byte>, from: nat) returns (n: nat, err: Option<ReadError>)
      requires from < buf.Length
      modifies this, buf
      ensures n <= buf.Length - from && n <= |old(data)|
      ensures data == old(data)[n..] && buf[from..from + n] == old(data)[..n]
      ensures buf[..from] == old(buf[..from])
      ensures err.Some? ==> data == [] && err.value == end
      ensures n > 0 || err.Some? || |plan| < |old(plan)|
      ensures |plan| <= |old(plan)|
    {
      var want := buf.Length - from;
      if plan != [] {
        want := Min(want, plan[0]);
        plan := plan[1..];
      }
      n := Min(want, |data|);
      var i := 0;
      while i < n
        modifies buf
        invariant 0 <= i <= n
        invariant buf[from..from + i] == data[..i]
        invariant buf[..from] == old(buf[..from])
      {
        buf[from + i] := data[i];
        i := i + 1;
      }
      data := data[n..];
      err := if data == [] && (eager || (n == 0 && want > 0)) then Some(end) else None;
    }
  }

  datatype FullError = AtEof | UnexpectedEof | Other

  /** How a full read of `size` bytes from a source holding `have` bytes ends. */
  function FullOutcome(size: nat, have: nat, end: ReadError): Option<FullError> {
    if have >= size then None
    else if end == Broken then Some(Other)
    else if have == 0 then Some(AtEof)
    else Some(UnexpectedEof)
  }

  /** Fills the buffer or runs into the end of the source, however its reads are split. */
  method ReadFull(r: Reader, buf: array<Byte>) returns (n: nat, err: Option<FullError>)
    modifies r, buf
    ensures n == Min(buf.Length, |old(r.data)|)
    ensures buf[..n] == old(r.data)[..n] && r.data == old(r.data)[n..]
    ensures err == FullOutcome(buf.Length, |old(r.data)|, r.end)
    ensures var short := |old(r.data)| < buf.Length;
            && (err.None? <==> !short)
            && (err == Some(AtEof) <==> short && r.end == Eof && n == 0)
            && (err == Some(UnexpectedEof) <==> short && r.end == Eof && n > 0)
            && (err == Some(Other) <==> short && r.end == Broken)
  {
    n := 0;
    var readErr: Option<ReadError> := None;
    while n < buf.Length && readErr.None?
      invariant n <= buf.Length && n <= |old(r.data)|
      invariant buf[..n] == old(r.data)[..n] && r.data == old(r.data)[n..]
      invariant readErr.Some? ==> r.data == [] && readErr.value == r.end
      decreases readErr.None?, |r.plan| + buf.Length - n
    {
      var got;
      got, readErr := r.Read(buf, n);
      assert buf[..n + got] == buf[..n] + buf[n..n + got];
      assert old(r.data)[..n + got] == old(r.data)[..n] + old(r.data)[n..][..got];
      n := n + got;
    }
    if n >= buf.Length {
      err := None;
    } else if readErr == Some(Eof) {
      err := Some(if n > 0 then UnexpectedEof else AtEof);
    } else {
      err := Some(Other);
    }
  }

  /** Why an encryption fails, if it does: the key, then the salt, then whichever comes first of a nonce
      that cannot be drawn and the plaintext source breaking. */
  function EncryptError(key: Bytes, rnd: nat, pt: nat, end: ReadError): Option<Error> {
    if key == [] then Some(EmptyKey)
    else if rnd < SALT_LEN then Some(NoSalt)
    else if rnd - SALT_LEN < NONCE_LEN * Chunks(pt) then Some(NoNonce)
    else if end == Broken then Some(ReadPlaintext)
    else None
  }

  /** Seals one chunk under a nonce drawn from the random bytes. */
  method SealChunk(c: Cipher, k: Bytes, rnd: Reader, chunk: Bytes) returns (frame: Result<Bytes, Error>)
    requires Authentic(c) && 0 < |chunk| <= CHUNK
    modifies rnd
    ensures |old(rnd.data)| < NONCE_LEN ==> frame == Err(NoNonce)
    ensures |old(rnd.data)| >= NONCE_LEN ==>
              && frame == Ok(Frame(c, k, old(rnd.data)[..NONCE_LEN], chunk))
              && rnd.data == old(rnd.data)[NONCE_LEN..]
  {
    var nonce := new Byte[NONCE_LEN];
    var drawn, nonceErr := ReadFull(rnd, nonce);
    if nonceErr.Some? {
      return Err(NoNonce);
    }
    assert nonce[..] == old(rnd.data)[..NONCE_LEN];
    var sealed := nonce[..] + c.seal(k, nonce[..], chunk);
    return Ok(Be32(|sealed|) + sealed);
  }

  /** Sealing the next chunk moves one frame from what is to come to what is written. */
  lemma SealedChunk(c: Cipher, k: Bytes, rnd: Bytes, pt: Bytes, n: nat, buf: Bytes)
    requires Authentic(c) && pt != [] && n == Min(|pt|, CHUNK)
    ensures Chunks(|pt|) == 1 + Chunks(|pt| - n)
    ensures |rnd| >= NONCE_LEN * Chunks(|pt|) ==>
              buf + Frames(c, k, rnd, pt) == (buf + Frame(c, k, rnd[..NONCE_LEN], pt[..n])) + Frames(c, k, rnd[NONCE_LEN..], pt[n..])
  {
    ChunksStep(|pt|);
  }

  /** What the loop of Encrypt keeps: the random bytes suffice for what is to come exactly if they sufficed at
      the start, and then what is written and what is to come make up the whole. */
  ghost predicate Sealing(c: Cipher, k: Bytes, nonces: Bytes, whole: Bytes, buf: Bytes, rnd: Bytes, pt: Bytes, header: Bytes)
    requires Authentic(c)
  {
    && |rnd| - NONCE_LEN * Chunks(|pt|) == |nonces| - NONCE_LEN * Chunks(|whole|)
    && (|nonces| >= NONCE_LEN * Chunks(|whole|) ==> buf + Frames(c, k, rnd, pt) == header + Frames(c, k, nonces, whole))
  }

  /** Reads the whole plaintext and returns the container; `rnd` is the source of random bytes. */
  method Encrypt(c: Cipher, r: Reader, rnd: Reader, key: Bytes) returns (out: Result<Bytes, Error>)
    requires Authentic(c) && r != rnd
    modifies r, rnd
    ensures var err := EncryptError(key, |old(rnd.data)|, |old(r.data)|, r.end);
            && (err.Some? ==> out == Err(err.value))
            && (err.None? ==> out == Ok(Encrypted(c, key, old(rnd.data), old(r.data))) && r.data == [])
    ensures var salted := |old(rnd.data)| >= 32; var enough := |old(rnd.data)| >= 32 + 12 * ((|old(r.data)| + 65_535) / 65_536);
            && (out == Err(EmptyKey) <==> key == [])
            && (out == Err(NoSalt) <==> key != [] && !salted)
            && (out == Err(NoNonce) <==> key != [] && salted && !enough)
            && (out == Err(ReadPlaintext) <==> key != [] && enough && r.end == Broken)
            && (out.Ok? <==> key != [] && enough && r.end == Eof)
  {
    if key == [] {
      return Err(EmptyKey);
    }
    var salt := new Byte[SALT_LEN];
    var got, saltErr := ReadFull(rnd, salt);
    if saltErr.Some? {
      return Err(NoSalt);
    }
    assert salt[..] == old(rnd.data)[..SALT_LEN];
    out := EncryptBody(c, r, rnd, c.derive(key, salt[..]), Header(salt[..]));
  }

  /** The chunks behind the header. */
  method EncryptBody(c: Cipher, r: Reader, rnd: Reader, derived: Bytes, header: Bytes) returns (out: Result<Bytes, Error>)
    requires Authentic(c) && r != rnd
    modifies r, rnd
    ensures var enough := |old(rnd.data)| >= NONCE_LEN * Chunks(|old(r.data)|);
            && (!enough ==> out == Err(NoNonce))
            && (enough && r.end == Broken ==> out == Err(ReadPlaintext))
            && (enough && r.end == Eof ==> out == Ok(header + Frames(c, derived, old(rnd.data), old(r.data))) && r.data == [])
  {
    var buf := header;
    var chunk := new Byte[CHUNK];
    var more := true;
    while more
      invariant more || (r.data == [] && r.end == Eof)
      invariant Sealing(c, derived, old(rnd.data), old(r.data), buf, rnd.data, r.data, header)
      decreases more, |r.data|
    {
      label top:
      var n, readErr := ReadFull(r, chunk);
      if n > 0 {
        SealedChunk(c, derived, rnd.data, old@top(r.data), n, buf);
        var frame := SealChunk(c, derived, rnd, chunk[..n]);
        if frame.Err? {
          return frame;
        }
        buf := buf + frame.value;
      }
      if readErr.Some? {
        if readErr != Some(Other) {
          more := false;
        } else {
          return Err(ReadPlaintext);
        }
      }
    }
    assert buf + [] == buf;
    return Ok(buf);
  }

  /** The header's salt, or why the header is refused. */
  method ReadHeader(r: Reader) returns (salt: Result<Bytes, Error>)
    modifies r
    ensures var d := old(r.data);
            salt == if |d| < HEADER_LEN then Err(Error.ReadHeader)
                    else if d[..4] != MAGIC then Err(BadMagic)
                    else if d[4] != VERSION then Err(BadVersion)
                    else Ok(d[17..HEADER_LEN])
    ensures salt.Ok? ==> r.data == old(r.data)[HEADER_LEN..]
  {
    var h := new Byte[HEADER_LEN];
    var n, err := ReadFull(r, h);
    if err.Some? {
      return Err(Error.ReadHeader);
    }
    assert h[..] == old(r.data)[..HEADER_LEN];
    assert h[..4] == old(r.data)[..4] && h[17..] == old(r.data)[17..HEADER_LEN];
    if h[..4] != MAGIC {
      return Err(BadMagic);
    }
    if h[4] != VERSION {
      return Err(BadVersion);
    }
    return Ok(h[17..]);
  }

  /** One frame of any body: its sealed part is opened and the rest follows. */
  lemma OpenedChunk(c: Cipher, k: Bytes, bs: Bytes, end: ReadError, n: nat, sealed: Bytes)
    requires |bs| >= 4 && n == FromBe32(bs[..4]) && NONCE_LEN <= n <= MAX_CHUNK_LEN && n <= |bs| - 4
    requires sealed == bs[4..][..n]
    ensures DecryptBody(c, k, bs, end) ==
      match c.open(k, sealed[..NONCE_LEN], sealed[NONCE_LEN..])
      case None => Err(OpenFailed)
      case Some(p) => Prepend(p, DecryptBody(c, k, bs[4..][n..], end))
  {
    assert sealed[..NONCE_LEN] == bs[4..][..NONCE_LEN] && sealed[NONCE_LEN..] == bs[4..][NONCE_LEN..n];
  }

  /** Reads a container and returns the plaintext: exactly what its bytes mean, however they arrive. */
  method Decrypt(c: Cipher, r: Reader, key: Bytes) returns (out: Result<Bytes, Error>)
    modifies r
    ensures out == Decrypted(c, key, old(r.data), r.end)
  {
    if key == [] {
      return Err(EmptyKey);
    }
    var h := ReadHeader(r);
    if h.Err? {
      return Err(h.error);
    }
    var derived := c.derive(key, h.value);
    var plaintext: Bytes := [];
    ghost var body := r.data;
    PrependEmpty([], DecryptBody(c, derived, body, r.end));
    var lenBuf := new Byte[4];
    while true
      invariant DecryptBody(c, derived, body, r.end) == Prepend(plaintext, DecryptBody(c, derived, r.data, r.end))
      decreases |r.data|
    {
      label top:
      var n, err := ReadFull(r, lenBuf);
      PrependEmpty(plaintext, Ok([]));
      if err.Some? {
        if err != Some(Other) {
          return Ok(plaintext);
        }
        return Err(ReadLength);
      }
      assert lenBuf[..] == old@top(r.data)[..4];
      var chunkLen := FromBe32(lenBuf[..]);
      if chunkLen > MAX_CHUNK_LEN {
        return Err(LengthTooLarge);
      }
      var sealed := new Byte[chunkLen];
      var m, bodyErr := ReadFull(r, sealed);
      if bodyErr.Some? {
        return Err(ReadChunk);
      }
      if sealed.Length < NONCE_LEN {
        return Err(ChunkTooShort);
      }
      assert sealed[..] == old@top(r.data)[4..][..chunkLen];
      OpenedChunk(c, derived, old@top(r.data), r.end, chunkLen, sealed[..]);
      var nonce, ciphertext := sealed[..NONCE_LEN], sealed[NONCE_LEN..];
      var decrypted := c.open(derived, nonce, ciphertext);
      if decrypted.None? {
        return Err(OpenFailed);
      }
      PrependTwice(plaintext, decrypted.value, DecryptBody(c, derived, r.data, r.end));
      plaintext := plaintext + decrypted.value;
    }
  }

  /** Encrypting and decrypting through any two readers restores the plaintext. */
  method BackupAndRestore(c: Cipher, pt: Bytes, plan: seq<nat>, eager: bool, plan': seq<nat>, eager': bool,
                          rnd: Reader, key: Bytes)
    returns (restored: Result<Bytes, Error>)
    requires Authentic(c) && key != [] && |rnd.data| >= SALT_LEN + NONCE_LEN * Chunks(|pt|)
    modifies rnd
    ensures restored == Ok(pt)
  {
    var source := new Reader(pt, plan, Eof, eager);
    var container := Encrypt(c, source, rnd, key);
    var stored := new Reader(container.value, plan', Eof, eager');
    restored := Decrypt(c, stored, key);
    RoundTrip(c, key, old(rnd.data), pt);
  }
}
