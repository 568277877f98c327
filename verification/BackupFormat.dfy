/** The encrypted backup container: a clear header, then length-prefixed sealed chunks of 64 KiB.
    This module says what bytes Encrypt produces, what Decrypt makes of any bytes, and how the two
    fit together. */
module BackupFormat {
  import opened Common

  type Bytes = seq<Byte>

  const MAGIC: Bytes := [0x56, 0x4B, 0x42, 0x4B]
  const VERSION: Byte := 1
  const ALGORITHM: Bytes := [0x41, 0x45, 0x53, 0x2D, 0x32, 0x35, 0x36, 0x2D, 0x47, 0x43, 0x4D, 0x00]
  const SALT_LEN := 32
  const NONCE_LEN := 12
  const TAG_LEN := 16
  const HEADER_LEN := 49
  const CHUNK := 65_536
  const FRAME := 65_568
  const MAX_CHUNK_LEN := 1_048_576

  /** Key derivation and authenticated encryption, given as functions. */
  datatype Cipher = Cipher(
    derive: (Bytes, Bytes) -> Bytes,
    seal: (Bytes, Bytes, Bytes) -> Bytes,
    open: (Bytes, Bytes, Bytes) -> Option<Bytes>)

  /** Opening what was sealed under the same key and nonce gives the plaintext back, and sealing adds
      one 16-byte tag (NIST SP 800-38D, sections 7.1 and 7.2). */
  ghost predicate Authentic(c: Cipher) {
    && (forall k, n, p :: |c.seal(k, n, p)| == |p| + TAG_LEN)
    && (forall k, n, p :: c.open(k, n, c.seal(k, n, p)) == Some(p))
  }

  /** How a byte source ends: at its end, or with some other failure. */
  datatype ReadError = Eof | Broken

  datatype Error =
    | EmptyKey | NoSalt | NoNonce | ReadPlaintext
    | ReadHeader | BadMagic | BadVersion
    | ReadLength | LengthTooLarge | ReadChunk | ChunkTooShort | OpenFailed

  // ---------------------------------------------------------------- the length prefix

  function Be32(n: nat): (bs: Bytes)
    requires n < 0x1_0000_0000
    ensures |bs| == 4
  {
    [n / 0x100_0000, n / 0x1_0000 % 0x100, n / 0x100 % 0x100, n % 0x100]
  }

  function FromBe32(bs: Bytes): nat
    requires |bs| == 4
  {
    var a: int, b: int, c: int, d: int := bs[0], bs[1], bs[2], bs[3];
    ((a * 0x100 + b) * 0x100 + c) * 0x100 + d
  }

  lemma Be32Inverse(n: nat)
    requires n < 0x1_0000_0000
    ensures FromBe32(Be32(n)) == n
  {
    var q := n / 0x100;
    assert n / 0x1_0000 == q / 0x100;
    assert n / 0x100_0000 == (q / 0x100) / 0x100;
  }

  // ---------------------------------------------------------------- what Encrypt writes

  function Header(salt: Bytes): (h: Bytes)
    requires |salt| == SALT_LEN
    ensures |h| == HEADER_LEN
  {
    MAGIC + [VERSION] + ALGORITHM + salt
  }

  /** One sealed chunk behind its length: nonce, ciphertext and tag. */
  function Frame(c: Cipher, k: Bytes, nonce: Bytes, chunk: Bytes): Bytes
    requires |nonce| + |c.seal(k, nonce, chunk)| < 0x1_0000_0000
  {
    var sealed := nonce + c.seal(k, nonce, chunk);
    Be32(|sealed|) + sealed
  }

  function Chunks(n: nat): nat { (n + CHUNK - 1) / CHUNK }

  /** The length of the frames of an n-byte plaintext: 32 bytes of overhead for each chunk. */
  function BodyLength(n: nat): nat { n + 32 * Chunks(n) }

  /** The frames of a plaintext, cut every 64 KiB, taking a fresh nonce from the random bytes each time. */
  ghost function Frames(c: Cipher, k: Bytes, rnd: Bytes, pt: Bytes): Bytes
    requires Authentic(c) && |rnd| >= NONCE_LEN * Chunks(|pt|)
  {
    if pt == [] then [] else
      var n := Min(|pt|, CHUNK);
      Frame(c, k, rnd[..NONCE_LEN], pt[..n]) + Frames(c, k, rnd[NONCE_LEN..], pt[n..])
  }

  ghost function Encrypted(c: Cipher, key: Bytes, rnd: Bytes, pt: Bytes): Bytes
    requires Authentic(c) && |rnd| >= SALT_LEN + NONCE_LEN * Chunks(|pt|)
  {
    var salt := rnd[..SALT_LEN];
    Header(salt) + Frames(c, c.derive(key, salt), rnd[SALT_LEN..], pt)
  }

  // ---------------------------------------------------------------- what Decrypt makes of any bytes

  /** Everything after the header. Running out of bytes inside a length prefix ends the stream quietly. */
  function DecryptBody(c: Cipher, k: Bytes, bs: Bytes, end: ReadError): Result<Bytes, Error>
    decreases |bs|
  {
    if |bs| < 4 then
      if end == Eof then Ok([]) else Err(ReadLength)
    else
      var n, rest := FromBe32(bs[..4]), bs[4..];
      if n > MAX_CHUNK_LEN then Err(LengthTooLarge)
      else if |rest| < n then Err(ReadChunk)
      else if n < NONCE_LEN then Err(ChunkTooShort)
      else
        match c.open(k, rest[..NONCE_LEN], rest[NONCE_LEN..n])
        case None => Err(OpenFailed)
        case Some(p) => Prepend(p, DecryptBody(c, k, rest[n..], end))
  }

  function Prepend(p: Bytes, r: Result<Bytes, Error>): Result<Bytes, Error> {
    match r
    case Ok(q) => Ok(p + q)
    case Err(e) => Err(e)
  }

  lemma PrependEmpty(p: Bytes, r: Result<Bytes, Error>)
    ensures Prepend([], r) == r && Prepend(p, Ok([])) == Ok(p)
  {
    if r.Ok? {
      assert [] + r.value == r.value;
    }
    assert p + [] == p;
  }

  lemma PrependTwice(p: Bytes, q: Bytes, r: Result<Bytes, Error>)
    ensures Prepend(p, Prepend(q, r)) == Prepend(p + q, r)
  {
    if r.Ok? {
      assert p + (q + r.value) == (p + q) + r.value;
    }
  }

  function Decrypted(c: Cipher, key: Bytes, bs: Bytes, end: ReadError): Result<Bytes, Error> {
    if key == [] then Err(EmptyKey)
    else if |bs| < HEADER_LEN then Err(ReadHeader)
    else if bs[..4] != MAGIC then Err(BadMagic)
    else if bs[4] != VERSION then Err(BadVersion)
    else DecryptBody(c, c.derive(key, bs[17..HEADER_LEN]), bs[HEADER_LEN..], end)
  }

  // ---------------------------------------------------------------- properties

  lemma ChunksStep(n: nat)
    requires n > 0
    ensures Chunks(n) == 1 + Chunks(n - Min(n, CHUNK))
  {
  }

  lemma {:induction false} FramesLength(c: Cipher, k: Bytes, rnd: Bytes, pt: Bytes)
    requires Authentic(c) && |rnd| >= NONCE_LEN * Chunks(|pt|)
    ensures |Frames(c, k, rnd, pt)| == BodyLength(|pt|)
    decreases |pt|
  {
    if pt != [] {
      var n := Min(|pt|, CHUNK);
      ChunksStep(|pt|);
      FramesLength(c, k, rnd[NONCE_LEN..], pt[n..]);
    }
  }

  lemma EncryptedLength(c: Cipher, key: Bytes, rnd: Bytes, pt: Bytes)
    requires Authentic(c) && |rnd| >= SALT_LEN + NONCE_LEN * Chunks(|pt|)
    ensures |Encrypted(c, key, rnd, pt)| == 49 + |pt| + 32 * ((|pt| + 65_535) / 65_536)
  {
    FramesLength(c, c.derive(key, rnd[..SALT_LEN]), rnd[SALT_LEN..], pt);
  }

  /** A frame's prefix is the length of what follows, fits 32 bits and passes the reader's limit. */
  lemma FrameShape(c: Cipher, k: Bytes, nonce: Bytes, chunk: Bytes)
    requires Authentic(c) && |nonce| == NONCE_LEN && |chunk| <= CHUNK
    ensures var f := Frame(c, k, nonce, chunk); var n := |chunk| + 28;
            && |f| == n + 4 && FromBe32(f[..4]) == n && n <= 1_048_576 < 0x1_0000_0000
            && f[0] as int * 0x100_0000 + f[1] as int * 0x1_0000 + f[2] as int * 0x100 + f[3] as int == n
            && f[4..] == nonce + c.seal(k, nonce, chunk)
  {
    Be32Inverse(|chunk| + 28);
    var f := Frame(c, k, nonce, chunk);
    assert f[..4] == Be32(|chunk| + 28);
  }

  /** Chunk i of the plaintext stands at its own place, sealed under its own twelve random bytes. */
  ghost predicate Stands(c: Cipher, k: Bytes, rnd: Bytes, pt: Bytes, frames: Bytes, i: nat)
    requires Authentic(c)
  {
    12 * i + 12 <= |rnd| && 65_536 * i < |pt| &&
    var n := Min(|pt| - 65_536 * i, 65_536);
    && |frames| >= 65_568 * i + n + 32
    && frames[65_568 * i..65_568 * i + n + 32] == Frame(c, k, rnd[12 * i..12 * i + 12], pt[65_536 * i..65_536 * i + n])
  }

  /** So every chunk is, and no two under the same bytes. */
  lemma {:induction false} FrameAt(c: Cipher, k: Bytes, rnd: Bytes, pt: Bytes, i: nat)
    requires Authentic(c) && |rnd| >= NONCE_LEN * Chunks(|pt|) && 65_536 * i < |pt|
    ensures Stands(c, k, rnd, pt, Frames(c, k, rnd, pt), i)
    decreases i
  {
    if i == 0 {
      FirstFrameAt(c, k, rnd, pt);
    } else {
      ChunksStep(|pt|);
      FrameAt(c, k, rnd[NONCE_LEN..], pt[CHUNK..], i - 1);
      NextFrameAt(c, k, rnd, pt, i);
    }
  }

  lemma FirstFrameAt(c: Cipher, k: Bytes, rnd: Bytes, pt: Bytes)
    requires Authentic(c) && |rnd| >= NONCE_LEN * Chunks(|pt|) && pt != []
    ensures Stands(c, k, rnd, pt, Frames(c, k, rnd, pt), 0)
  {
    var f, rest := FramesSplit(c, k, rnd, pt, Min(|pt|, CHUNK));
    StandsInFront(c, k, rnd, pt, f, rest);
  }

  lemma NextFrameAt(c: Cipher, k: Bytes, rnd: Bytes, pt: Bytes, i: nat)
    requires Authentic(c) && |rnd| >= NONCE_LEN * Chunks(|pt|) && |pt| > CHUNK && i > 0
    requires |rnd[NONCE_LEN..]| >= NONCE_LEN * Chunks(|pt[CHUNK..]|)
    requires Stands(c, k, rnd[NONCE_LEN..], pt[CHUNK..], Frames(c, k, rnd[NONCE_LEN..], pt[CHUNK..]), i - 1)
    ensures Stands(c, k, rnd, pt, Frames(c, k, rnd, pt), i)
  {
    var f, rest := FramesSplit(c, k, rnd, pt, CHUNK);
    StandsBehind(c, k, rnd, pt, f, rest, Frames(c, k, rnd, pt), i);
  }

  lemma StandsInFront(c: Cipher, k: Bytes, rnd: Bytes, pt: Bytes, f: Bytes, rest: Bytes)
    requires Authentic(c) && |rnd| >= NONCE_LEN && pt != [] && |f| == Min(|pt|, CHUNK) + 32
    requires f == Frame(c, k, rnd[..NONCE_LEN], pt[..Min(|pt|, CHUNK)])
    ensures Stands(c, k, rnd, pt, f + rest, 0)
  {
    SliceInFront(f, rest);
    assert rnd[0..12] == rnd[..12] && pt[0..Min(|pt|, CHUNK)] == pt[..Min(|pt|, CHUNK)];
  }

  lemma StandsBehind(c: Cipher, k: Bytes, rnd: Bytes, pt: Bytes, f: Bytes, rest: Bytes, frames: Bytes, i: nat)
    requires Authentic(c) && |f| == FRAME && |rnd| >= NONCE_LEN && |pt| > CHUNK && i > 0 && frames == f + rest
    requires Stands(c, k, rnd[NONCE_LEN..], pt[CHUNK..], rest, i - 1)
    ensures Stands(c, k, rnd, pt, frames, i)
  {
    var n := Min(|pt| - 65_536 * i, 65_536);
    SliceBehind(f, rest, 65_568 * (i - 1), 65_568 * (i - 1) + n + 32);
    SliceOfRest(rnd, NONCE_LEN, 12 * (i - 1), 12 * (i - 1) + 12);
    SliceOfRest(pt, CHUNK, 65_536 * (i - 1), 65_536 * (i - 1) + n);
  }

  lemma FramesSplit(c: Cipher, k: Bytes, rnd: Bytes, pt: Bytes, m: nat) returns (f: Bytes, rest: Bytes)
    requires Authentic(c) && |rnd| >= NONCE_LEN * Chunks(|pt|) && pt != [] && m == Min(|pt|, CHUNK)
    ensures |rnd| >= NONCE_LEN && |rnd[NONCE_LEN..]| >= NONCE_LEN * Chunks(|pt[m..]|)
    ensures f == Frame(c, k, rnd[..NONCE_LEN], pt[..m]) && |f| == m + 32
    ensures rest == Frames(c, k, rnd[NONCE_LEN..], pt[m..]) && Frames(c, k, rnd, pt) == f + rest
  {
    ChunksStep(|pt|);
    FrameShape(c, k, rnd[..NONCE_LEN], pt[..m]);
    f, rest := Frame(c, k, rnd[..NONCE_LEN], pt[..m]), Frames(c, k, rnd[NONCE_LEN..], pt[m..]);
  }

  lemma SliceInFront(f: Bytes, rest: Bytes)
    ensures (f + rest)[..|f|] == f && (f + rest)[0..|f|] == f
  {
  }

  lemma SliceBehind(f: Bytes, rest: Bytes, lo: nat, hi: nat)
    requires lo <= hi <= |rest|
    ensures (f + rest)[|f| + lo..|f| + hi] == rest[lo..hi]
  {
  }

  lemma SliceOfRest(bs: Bytes, m: nat, lo: nat, hi: nat)
    requires m + hi <= |bs| && lo <= hi
    ensures bs[m..][lo..hi] == bs[m + lo..m + hi]
  {
  }

  /** Reading one whole frame yields its chunk and continues behind it. */
  lemma DecryptFrame(c: Cipher, k: Bytes, nonce: Bytes, chunk: Bytes, tail: Bytes, end: ReadError)
    requires Authentic(c) && |nonce| == NONCE_LEN && |chunk| <= CHUNK
    ensures DecryptBody(c, k, Frame(c, k, nonce, chunk) + tail, end) == Prepend(chunk, DecryptBody(c, k, tail, end))
  {
    FrameShape(c, k, nonce, chunk);
    var f := Frame(c, k, nonce, chunk);
    var n, rest := |chunk| + 28, f[4..] + tail;
    assert (f + tail)[..4] == f[..4] && (f + tail)[4..] == rest;
    assert rest[..NONCE_LEN] == nonce;
    assert rest[NONCE_LEN..n] == c.seal(k, nonce, chunk);
    assert rest[n..] == tail;
  }

  /** A frame cut anywhere after its length prefix cannot be read. */
  lemma DecryptCutFrame(c: Cipher, k: Bytes, nonce: Bytes, chunk: Bytes, q: nat)
    requires Authentic(c) && |nonce| == NONCE_LEN && |chunk| <= CHUNK && 4 <= q < |chunk| + 32
    ensures |Frame(c, k, nonce, chunk)| == |chunk| + 32
    ensures DecryptBody(c, k, Frame(c, k, nonce, chunk)[..q], Eof) == Err(ReadChunk)
  {
    FrameShape(c, k, nonce, chunk);
    var f := Frame(c, k, nonce, chunk);
    assert f[..q][..4] == f[..4];
  }

  /** The header is accepted and yields the salt back. */
  lemma HeaderAccepted(c: Cipher, key: Bytes, salt: Bytes, body: Bytes, end: ReadError)
    requires |salt| == SALT_LEN && key != []
    ensures Decrypted(c, key, Header(salt) + body, end) == DecryptBody(c, c.derive(key, salt), body, end)
  {
    var bs := Header(salt) + body;
    assert bs[..4] == MAGIC && bs[4] == VERSION;
    assert bs[17..HEADER_LEN] == salt;
    assert bs[HEADER_LEN..] == body;
  }

  /** The first frame of a plaintext in front of the frames of the rest. */
  lemma FirstFrame(c: Cipher, k: Bytes, rnd: Bytes, pt: Bytes, n: nat)
    requires Authentic(c) && |rnd| >= NONCE_LEN * Chunks(|pt|) && pt != [] && n == Min(|pt|, CHUNK)
    ensures |rnd| >= NONCE_LEN && |rnd[NONCE_LEN..]| >= NONCE_LEN * Chunks(|pt[n..]|)
    ensures DecryptBody(c, k, Frames(c, k, rnd, pt), Eof)
         == Prepend(pt[..n], DecryptBody(c, k, Frames(c, k, rnd[NONCE_LEN..], pt[n..]), Eof))
  {
    ChunksStep(|pt|);
    DecryptFrame(c, k, rnd[..NONCE_LEN], pt[..n], Frames(c, k, rnd[NONCE_LEN..], pt[n..]), Eof);
  }

  lemma {:induction false} BodyRoundTrip(c: Cipher, k: Bytes, rnd: Bytes, pt: Bytes)
    requires Authentic(c) && |rnd| >= NONCE_LEN * Chunks(|pt|)
    ensures DecryptBody(c, k, Frames(c, k, rnd, pt), Eof) == Ok(pt)
    decreases |pt|
  {
    if pt != [] {
      var n := Min(|pt|, CHUNK);
      FirstFrame(c, k, rnd, pt, n);
      BodyRoundTrip(c, k, rnd[NONCE_LEN..], pt[n..]);
      assert pt == pt[..n] + pt[n..];
    }
  }

  /** Decrypting what was encrypted under the same key gives the plaintext back, for every plaintext,
      key and choice of salt and nonces. */
  lemma RoundTrip(c: Cipher, key: Bytes, rnd: Bytes, pt: Bytes)
    requires Authentic(c) && key != [] && |rnd| >= SALT_LEN + NONCE_LEN * Chunks(|pt|)
    ensures Decrypted(c, key, Encrypted(c, key, rnd, pt), Eof) == Ok(pt)
  {
    var salt := rnd[..SALT_LEN];
    var k := c.derive(key, salt);
    HeaderAccepted(c, key, salt, Frames(c, k, rnd[SALT_LEN..], pt), Eof);
    BodyRoundTrip(c, k, rnd[SALT_LEN..], pt);
  }

  // ---------------------------------------------------------------- malformed streams

  /** The header is the letters VKBK, version 1, the algorithm's name closed by a zero byte, and the salt. */
  lemma HeaderBytes(salt: Bytes)
    requires |salt| == SALT_LEN
    ensures Header(salt)[..17] == [86, 75, 66, 75, 1, 65, 69, 83, 45, 50, 53, 54, 45, 71, 67, 77, 0] && Header(salt)[17..] == salt
  {
  }

  /** A chunk is refused for the first of: a length over a mebibyte, bytes that run out, no room for a nonce, a tag that
      does not fit. Running out within the length itself is a quiet end. */
  lemma ChunkVerdict(c: Cipher, k: Bytes, bs: Bytes, end: ReadError)
    ensures var r := DecryptBody(c, k, bs, end);
            if |bs| < 4 then r == if end == Eof then Ok([]) else Err(ReadLength)
            else
              var n := bs[0] as int * 0x100_0000 + bs[1] as int * 0x1_0000 + bs[2] as int * 0x100 + bs[3] as int;
              var rest := bs[4..];
              if n > 1_048_576 then r == Err(LengthTooLarge)
              else if |rest| < n then r == Err(ReadChunk)
              else if n < 12 then r == Err(ChunkTooShort)
              else
                var chunk, more := c.open(k, rest[..12], rest[12..n]), DecryptBody(c, k, rest[n..], end);
                if chunk.None? then r == Err(OpenFailed)
                else if more.Err? then r == more
                else r == Ok(chunk.value + more.value)
  {
    if |bs| >= 4 {
      BigEndian(bs);
    }
  }

  lemma BigEndian(bs: Bytes)
    requires |bs| >= 4
    ensures FromBe32(bs[..4]) == bs[0] as int * 0x100_0000 + bs[1] as int * 0x1_0000 + bs[2] as int * 0x100 + bs[3] as int
  {
  }

  predicate OfHeader(e: Error) { e.EmptyKey? || e.ReadHeader? || e.BadMagic? || e.BadVersion? }

  lemma {:induction false} BodyErrors(c: Cipher, k: Bytes, bs: Bytes, end: ReadError)
    ensures DecryptBody(c, k, bs, end).Err? ==> !OfHeader(DecryptBody(c, k, bs, end).error)
    decreases |bs|
  {
    if |bs| >= 4 {
      var n := FromBe32(bs[..4]);
      if NONCE_LEN <= n <= |bs| - 4 {
        BodyErrors(c, k, bs[4..][n..], end);
      }
    }
  }

  /** Each refusal of the header is given exactly for its reason. */
  lemma HeaderVerdict(c: Cipher, key: Bytes, bs: Bytes, end: ReadError)
    ensures var r := Decrypted(c, key, bs, end);
            && (r == Err(EmptyKey) <==> key == [])
            && (r == Err(ReadHeader) <==> key != [] && |bs| < 49)
            && (r == Err(BadMagic) <==> key != [] && |bs| >= 49 && bs[..4] != [86, 75, 66, 75])
            && (r == Err(BadVersion) <==> key != [] && |bs| >= 49 && bs[..4] == [86, 75, 66, 75] && bs[4] != 1)
  {
    if key != [] && |bs| >= HEADER_LEN {
      BodyErrors(c, c.derive(key, bs[17..HEADER_LEN]), bs[HEADER_LEN..], end);
    }
  }

  // ---------------------------------------------------------------- truncated streams

  /** What a body of the given total length, cut after q bytes, decrypts to: an error inside a sealed
      chunk, otherwise the whole chunks before the cut. */
  function CutResult(pt: Bytes, total: nat, q: nat): Result<Bytes, Error> {
    if q >= total then Ok(pt)
    else if q % FRAME >= 4 then Err(ReadChunk)
    else Ok(pt[..Min(CHUNK * (q / FRAME), |pt|)])
  }

  lemma WholeChunksFit(n: nat, q: nat)
    requires q < BodyLength(n)
    ensures CHUNK * (q / FRAME) <= n
  {
  }

  /** A full first chunk shifts the cut by one frame. */
  lemma CutResultStep(pt: Bytes, q: nat)
    requires |pt| > CHUNK && FRAME <= q < BodyLength(|pt|)
    ensures CutResult(pt, BodyLength(|pt|), q)
         == Prepend(pt[..CHUNK], CutResult(pt[CHUNK..], BodyLength(|pt| - CHUNK), q - FRAME))
  {
    assert q / FRAME == (q - FRAME) / FRAME + 1 && q % FRAME == (q - FRAME) % FRAME;
    ChunksStep(|pt|);
    WholeChunksFit(|pt|, q);
    var m := (q - FRAME) / FRAME;
    assert pt[..CHUNK * (m + 1)] == pt[..CHUNK] + pt[CHUNK..][..CHUNK * m];
  }

  /** A cut behind the first frame leaves that frame whole. */
  lemma CutBehindFirst(c: Cipher, k: Bytes, rnd: Bytes, pt: Bytes, q: nat)
    requires Authentic(c) && |rnd| >= NONCE_LEN * Chunks(|pt|)
    requires |pt| > CHUNK && FRAME <= q < BodyLength(|pt|)
    ensures q - FRAME <= BodyLength(|pt| - CHUNK) && Chunks(|pt|) == 1 + Chunks(|pt| - CHUNK)
    ensures |Frames(c, k, rnd, pt)| == BodyLength(|pt|)
    ensures |Frames(c, k, rnd[NONCE_LEN..], pt[CHUNK..])| == BodyLength(|pt| - CHUNK)
    ensures DecryptBody(c, k, Frames(c, k, rnd, pt)[..q], Eof)
         == Prepend(pt[..CHUNK], DecryptBody(c, k, Frames(c, k, rnd[NONCE_LEN..], pt[CHUNK..])[..q - FRAME], Eof))
  {
    ChunksStep(|pt|);
    FramesLength(c, k, rnd, pt);
    var nonce, chunk := rnd[..NONCE_LEN], pt[..CHUNK];
    FramesLength(c, k, rnd[NONCE_LEN..], pt[CHUNK..]);
    var tail := Frames(c, k, rnd[NONCE_LEN..], pt[CHUNK..]);
    FrameShape(c, k, nonce, chunk);
    assert Frames(c, k, rnd, pt)[..q] == Frame(c, k, nonce, chunk) + tail[..q - FRAME];
    DecryptFrame(c, k, nonce, chunk, tail[..q - FRAME], Eof);
  }

  /** A cut inside the first frame, behind its length prefix. */
  lemma CutInFirst(c: Cipher, k: Bytes, rnd: Bytes, pt: Bytes, q: nat)
    requires Authentic(c) && |rnd| >= NONCE_LEN * Chunks(|pt|)
    requires pt != [] && 4 <= q < Min(|pt|, CHUNK) + 32
    ensures q <= |Frames(c, k, rnd, pt)|
    ensures DecryptBody(c, k, Frames(c, k, rnd, pt)[..q], Eof) == Err(ReadChunk)
  {
    var nonce, chunk := rnd[..NONCE_LEN], pt[..Min(|pt|, CHUNK)];
    DecryptCutFrame(c, k, nonce, chunk, q);
    assert Frames(c, k, rnd, pt)[..q] == Frame(c, k, nonce, chunk)[..q];
  }

  lemma {:induction false} BodyTruncation(c: Cipher, k: Bytes, rnd: Bytes, pt: Bytes, q: nat)
    requires Authentic(c) && |rnd| >= NONCE_LEN * Chunks(|pt|)
    requires q <= BodyLength(|pt|)
    ensures |Frames(c, k, rnd, pt)| == BodyLength(|pt|)
    ensures DecryptBody(c, k, Frames(c, k, rnd, pt)[..q], Eof) == CutResult(pt, BodyLength(|pt|), q)
    decreases |pt|
  {
    FramesLength(c, k, rnd, pt);
    if q == BodyLength(|pt|) {
      assert Frames(c, k, rnd, pt)[..q] == Frames(c, k, rnd, pt);
      BodyRoundTrip(c, k, rnd, pt);
    } else if 4 <= q < Min(|pt|, CHUNK) + 32 {
      CutInFirst(c, k, rnd, pt, q);
    } else if q >= 4 {
      CutBehindFirst(c, k, rnd, pt, q);
      BodyTruncation(c, k, rnd[NONCE_LEN..], pt[CHUNK..], q - FRAME);
      CutResultStep(pt, q);
    }
  }

  /** The whole stream cut after p bytes. */
  lemma EncryptedCut(c: Cipher, key: Bytes, rnd: Bytes, pt: Bytes, p: nat)
    requires Authentic(c) && key != [] && |rnd| >= SALT_LEN + NONCE_LEN * Chunks(|pt|)
    requires p <= HEADER_LEN + BodyLength(|pt|)
    ensures |Encrypted(c, key, rnd, pt)| == HEADER_LEN + BodyLength(|pt|)
    ensures Decrypted(c, key, Encrypted(c, key, rnd, pt)[..p], Eof)
         == if p < HEADER_LEN then Err(ReadHeader) else CutResult(pt, BodyLength(|pt|), p - HEADER_LEN)
  {
    var salt := rnd[..SALT_LEN];
    var k := c.derive(key, salt);
    var body := Frames(c, k, rnd[SALT_LEN..], pt);
    FramesLength(c, k, rnd[SALT_LEN..], pt);
    if p >= HEADER_LEN {
      assert Encrypted(c, key, rnd, pt)[..p] == Header(salt) + body[..p - HEADER_LEN];
      HeaderAccepted(c, key, salt, body[..p - HEADER_LEN], Eof);
      BodyTruncation(c, k, rnd[SALT_LEN..], pt, p - HEADER_LEN);
    }
  }

  /** Truncation, exactly: a stream cut after p bytes is rejected when the cut falls inside the header or
      a sealed chunk; a cut on a chunk boundary or inside a length prefix is accepted and yields the
      whole 64 KiB chunks before it; the uncut stream yields everything. */
  lemma Truncation(c: Cipher, key: Bytes, rnd: Bytes, pt: Bytes, p: nat)
    requires Authentic(c) && key != [] && |rnd| >= SALT_LEN + NONCE_LEN * Chunks(|pt|)
    requires p <= |Encrypted(c, key, rnd, pt)|
    ensures var total := 49 + |pt| + 32 * Chunks(|pt|);
            var r := Decrypted(c, key, Encrypted(c, key, rnd, pt)[..p], Eof);
            && |Encrypted(c, key, rnd, pt)| == total
            && (r.Err? <==> p < 49 || (p < total && (p - 49) % 65_568 >= 4))
            && (r.Ok? && p == total ==> r.value == pt)
            && (r.Ok? && p < total ==> 65_536 * ((p - 49) / 65_568) <= |pt| && r.value == pt[..65_536 * ((p - 49) / 65_568)])
  {
    EncryptedLength(c, key, rnd, pt);
    EncryptedCut(c, key, rnd, pt, p);
    if 49 <= p < 49 + BodyLength(|pt|) {
      WholeChunksFit(|pt|, p - 49);
    }
  }
}
