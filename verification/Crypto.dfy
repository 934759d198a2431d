/**
 * The chunked encrypted file format. The cipher is a parameter: a pair of functions of which only
 * the ciphertext length and the opening of what was sealed are used.
 */
module Crypto {
  import opened Prelude
  import opened Layout

  const MAGIC: seq<byte> := [82, 83, 69, 49] // "RSE1"
  const LAST_FLAG: nat := TWO31

  datatype CryptoError =
    | Framing(e: LayoutError)
    | BadHeader
    | CounterOverflow
    | BadChunk

  type Nonce = seq<byte>

  datatype Aead = Aead(seal: (Nonce, seq<byte>) -> seq<byte>, open: (Nonce, seq<byte>) -> Option<seq<byte>>)

  function BigEndian32(c: nat): (b: seq<byte>)
    ensures |b| == 4
  {
    [c / 256 / 256 / 256 % 256, c / 256 / 256 % 256, c / 256 % 256, c % 256]
  }

  /** `counter | LAST_FLAG` on a 32-bit word: set bit 31. */
  function WithLastFlag(counter: nat): (c: nat)
  {
    if counter < LAST_FLAG then counter + LAST_FLAG else counter
  }

  function NonceCounter(counter: nat, last: bool): (c: nat)
  {
    if last then WithLastFlag(counter) else counter
  }

  function ChunkNonce(prefix: seq<byte>, counter: nat, last: bool): (n: Nonce)
    ensures |n| == |prefix| + 4
  {
    prefix + BigEndian32(NonceCounter(counter, last))
  }

  function Header(prefix: seq<byte>): (h: seq<byte>)
    ensures |h| == 4 + |prefix|
  {
    MAGIC + prefix
  }

  /** The seal and open side of one file. The counter field is the source's 32-bit counter. */
  class Encryptor {
    const aead: Aead
    const prefix: seq<byte>
    var counter: nat

    constructor (aead: Aead, prefix: seq<byte>)
      requires |prefix| == PREFIX_LEN
      ensures this.aead == aead && this.prefix == prefix && counter == 0
    {
      this.aead, this.prefix, counter := aead, prefix, 0;
    }

    method SealChunk(plain: seq<byte>, last: bool) returns (r: Result<seq<byte>, CryptoError>)
      requires counter < TWO32
      modifies this`counter
      ensures counter < TWO32
      ensures old(counter) == TWO32 - 1 ==> r == Err(CounterOverflow) && counter == old(counter)
      ensures old(counter) < TWO32 - 1 ==>
                r == Ok(aead.seal(ChunkNonce(prefix, old(counter), last), plain)) && counter == old(counter) + 1
    {
      var nonce := ChunkNonce(prefix, counter, last);
      if counter + 1 == TWO32 { return Err(CounterOverflow); }
      counter := counter + 1;
      r := Ok(aead.seal(nonce, plain));
    }
  }

  class Decryptor {
    const aead: Aead
    const prefix: seq<byte>
    var counter: nat

    constructor (aead: Aead, prefix: seq<byte>)
      ensures this.aead == aead && this.prefix == prefix && counter == 0
    {
      this.aead, this.prefix, counter := aead, prefix, 0;
    }

    method OpenChunk(cipher: seq<byte>, last: bool) returns (r: Result<seq<byte>, CryptoError>)
      requires counter < TWO32
      modifies this`counter
      ensures counter == Min(old(counter) + 1, TWO32 - 1)
      ensures r == OpenAt(aead, prefix, old(counter), cipher, last)
    {
      var nonce := ChunkNonce(prefix, counter, last);
      if counter + 1 == TWO32 { return Err(CounterOverflow); }
      counter := counter + 1;
      match aead.open(nonce, cipher)
      case None => r := Err(BadChunk);
      case Some(plain) => r := Ok(plain);
    }

    method SeekTo(index: nat)
      requires index < TWO32
      modifies this`counter
      ensures counter == index
    {
      counter := index;
    }
  }

  /** What opening one chunk yields at a given counter value. */
  function OpenAt(a: Aead, prefix: seq<byte>, counter: nat, cipher: seq<byte>, last: bool)
    : (r: Result<seq<byte>, CryptoError>)
  {
    if counter + 1 >= TWO32 then Err(CounterOverflow)
    else
      match a.open(ChunkNonce(prefix, counter, last), cipher)
      case None => Err(BadChunk)
      case Some(plain) => Ok(plain)
  }

  /** A header is accepted when it is long enough and starts with the magic. */
  predicate GoodHeader(blob: seq<byte>)
  {
    |blob| >= HEADER_LEN && blob[..4] == MAGIC
  }

  // ---------------------------------------------------------------- the format, chunk by chunk

  ghost function ChunkEnd(len: nat, i: nat): (e: nat)
    requires i < ChunkCount(len)
    ensures i * CHUNK <= e <= len && e - i * CHUNK <= CHUNK
    ensures i < ChunkCount(len) - 1 ==> e == (i + 1) * CHUNK
    ensures i == ChunkCount(len) - 1 ==> e == len
  {
    if i == ChunkCount(len) - 1 then len else (i + 1) * CHUNK
  }

  ghost function PlainChunk(data: seq<byte>, i: nat): (c: seq<byte>)
    requires i < ChunkCount(|data|)
  {
    data[i * CHUNK..ChunkEnd(|data|, i)]
  }

  ghost predicate IsLast(data: seq<byte>, i: nat) { i == ChunkCount(|data|) - 1 }

  ghost function FileNonce(prefix: seq<byte>, data: seq<byte>, i: nat): (n: Nonce)
  {
    ChunkNonce(prefix, i, IsLast(data, i))
  }

  ghost function SealedChunk(a: Aead, prefix: seq<byte>, data: seq<byte>, i: nat): (c: seq<byte>)
    requires i < ChunkCount(|data|)
  {
    a.seal(FileNonce(prefix, data, i), PlainChunk(data, i))
  }

  /** The first k sealed chunks, concatenated. */
  ghost function Body(a: Aead, prefix: seq<byte>, data: seq<byte>, k: nat): (b: seq<byte>)
    requires k <= ChunkCount(|data|)
  {
    if k == 0 then [] else Body(a, prefix, data, k - 1) + SealedChunk(a, prefix, data, k - 1)
  }

  /** The stored form of a file. */
  ghost function Blob(a: Aead, prefix: seq<byte>, data: seq<byte>): (b: seq<byte>)
  {
    Header(prefix) + Body(a, prefix, data, ChunkCount(|data|))
  }

  /** Where chunk i ends, and that only the last chunk ends the file. */
  lemma ChunkEnds(len: nat, i: nat)
    requires i < ChunkCount(len)
    ensures ChunkEnd(len, i) == Min((i + 1) * CHUNK, len) && i * CHUNK <= ChunkEnd(len, i)
    ensures ChunkEnd(len, i) == len <==> i == ChunkCount(len) - 1
  {
  }

  /** Chunk i extends the plaintext before it and is followed by the plaintext after it. */
  lemma PlainSplit(data: seq<byte>, i: nat)
    requires i < ChunkCount(|data|)
    ensures data[..i * CHUNK] + PlainChunk(data, i) == data[..ChunkEnd(|data|, i)]
    ensures PlainChunk(data, i) + data[ChunkEnd(|data|, i)..] == data[i * CHUNK..]
  {
  }

  /** The cipher adds exactly one tag. */
  ghost predicate TagLengths(a: Aead)
  {
    forall n, p :: |a.seal(n, p)| == |p| + TAG
  }

  /** Everything sealed for this file opens to what was sealed. */
  ghost predicate OpensFile(a: Aead, prefix: seq<byte>, data: seq<byte>)
  {
    forall i: nat | i < ChunkCount(|data|) ::
      a.open(FileNonce(prefix, data, i), SealedChunk(a, prefix, data, i)) == Some(PlainChunk(data, i))
  }

  lemma {:induction false} BodyLength(a: Aead, prefix: seq<byte>, data: seq<byte>, k: nat)
    requires TagLengths(a) && k <= ChunkCount(|data|)
    ensures k < ChunkCount(|data|) ==> |Body(a, prefix, data, k)| == k * CIPHER_CHUNK
    ensures k == ChunkCount(|data|) ==> |Body(a, prefix, data, k)| == |data| + k * TAG
  {
    if k > 0 { BodyLength(a, prefix, data, k - 1); }
  }

  lemma SliceOfFront(b: seq<byte>, c: seq<byte>, lo: nat, hi: nat)
    requires lo <= hi <= |b|
    ensures (b + c)[lo..hi] == b[lo..hi]
  {
  }

  lemma SliceOfBack(b: seq<byte>, c: seq<byte>)
    ensures (b + c)[|b|..|b| + |c|] == c
  {
  }

  /** Chunk i sits at offset i * CIPHER_CHUNK of any body that contains it. */
  lemma {:induction false} BodySlice(a: Aead, prefix: seq<byte>, data: seq<byte>, k: nat, i: nat)
    requires TagLengths(a) && i < k <= ChunkCount(|data|)
    ensures var c := SealedChunk(a, prefix, data, i);
            i * CIPHER_CHUNK + |c| <= |Body(a, prefix, data, k)|
            && Body(a, prefix, data, k)[i * CIPHER_CHUNK..i * CIPHER_CHUNK + |c|] == c
  {
    var b, z := Body(a, prefix, data, k - 1), SealedChunk(a, prefix, data, k - 1);
    if i < k - 1 {
      BodySlice(a, prefix, data, k - 1, i);
      SliceOfFront(b, z, i * CIPHER_CHUNK, i * CIPHER_CHUNK + |SealedChunk(a, prefix, data, i)|);
    } else {
      BodyLength(a, prefix, data, i);
      SliceOfBack(b, z);
    }
  }

  lemma BlobLength(a: Aead, prefix: seq<byte>, data: seq<byte>)
    requires TagLengths(a) && |prefix| == PREFIX_LEN
    ensures |Blob(a, prefix, data)| == CipherLen(|data|)
  {
    BodyLength(a, prefix, data, ChunkCount(|data|));
  }

  function CipherChunkLen(n: nat, last: nat, i: nat): (len: nat)
  {
    if i + 1 == n then last else CIPHER_CHUNK
  }

  lemma BlobSlice(a: Aead, prefix: seq<byte>, data: seq<byte>, i: nat)
    requires TagLengths(a) && |prefix| == PREFIX_LEN && i < ChunkCount(|data|)
    ensures var c, off := SealedChunk(a, prefix, data, i), HEADER_LEN + i * CIPHER_CHUNK;
            |c| == CipherChunkLen(ChunkCount(|data|), |data| - (ChunkCount(|data|) - 1) * CHUNK + TAG, i)
            && off + |c| <= |Blob(a, prefix, data)| && Blob(a, prefix, data)[off..off + |c|] == c
  {
    BodySlice(a, prefix, data, ChunkCount(|data|), i);
  }

  // ---------------------------------------------------------------- decryption of a whole blob

  function Prepend(front: seq<byte>, r: Result<seq<byte>, CryptoError>): (s: Result<seq<byte>, CryptoError>)
  {
    match r
    case Err(e) => Err(e)
    case Ok(rest) => Ok(front + rest)
  }

  lemma PrependTwice(x: seq<byte>, y: seq<byte>, r: Result<seq<byte>, CryptoError>)
    ensures Prepend(x, Prepend(y, r)) == Prepend(x + y, r)
  {
    if r.Ok? { assert x + (y + r.value) == x + y + r.value; }
  }

  lemma PrependNothing(r: Result<seq<byte>, CryptoError>)
    ensures Prepend([], r) == r
  {
    if r.Ok? { assert [] + r.value == r.value; }
  }

  /** Open chunks i.. of an accepted blob; the reference for the decrypt loop. */
  function OpenFrom(a: Aead, blob: seq<byte>, n: nat, last: nat, i: nat): (r: Result<seq<byte>, CryptoError>)
    requires n >= 1 && i <= n && last <= CIPHER_CHUNK && |blob| == HEADER_LEN + (n - 1) * CIPHER_CHUNK + last
    decreases n - i
  {
    if i == n then Ok([])
    else
      var off := HEADER_LEN + i * CIPHER_CHUNK;
      var chunk := blob[off..off + CipherChunkLen(n, last, i)];
      match OpenAt(a, blob[4..HEADER_LEN], i, chunk, i + 1 == n)
      case Err(e) => Err(e)
      case Ok(plain) => Prepend(plain, OpenFrom(a, blob, n, last, i + 1))
  }

  function Decrypt(a: Aead, blob: seq<byte>): (r: Result<seq<byte>, CryptoError>)
  {
    match ChunkLayout(|blob|)
    case Err(e) => Err(Framing(e))
    case Ok((n, last)) =>
      if !GoodHeader(blob) then Err(BadHeader)
      else LayoutCovers(|blob|); OpenFrom(a, blob, n, last, 0)
  }

  lemma BodyGrows(a: Aead, prefix: seq<byte>, data: seq<byte>, k: nat)
    requires k < ChunkCount(|data|)
    ensures Header(prefix) + Body(a, prefix, data, k) + SealedChunk(a, prefix, data, k) ==
            Header(prefix) + Body(a, prefix, data, k + 1)
  {
  }

  lemma EmptyFile(a: Aead, prefix: seq<byte>)
    ensures ChunkCount(0) == 1 && Blob(a, prefix, []) == Header(prefix) + a.seal(ChunkNonce(prefix, 0, true), [])
  {
    assert PlainChunk([], 0) == [];
    BodyGrows(a, prefix, [], 0);
    assert Header(prefix) + [] == Header(prefix);
  }

  /** After k chunks: what is left of the file and what has been written. */
  ghost predicate Sealing(a: Aead, prefix: seq<byte>, data: seq<byte>, k: nat, rest: seq<byte>, out: seq<byte>)
  {
    && k <= ChunkCount(|data|)
    && rest == data[Min(k * CHUNK, |data|)..] && (k == ChunkCount(|data|) <==> |rest| == 0)
    && out == Header(prefix) + Body(a, prefix, data, k)
  }

  lemma SealOneMore(a: Aead, prefix: seq<byte>, data: seq<byte>, k: nat, rest: seq<byte>, out: seq<byte>)
    requires Sealing(a, prefix, data, k, rest, out) && |rest| > 0
    ensures k < ChunkCount(|data|)
    ensures var take := Min(CHUNK, |rest|);
            && 0 < take && rest[..take] == PlainChunk(data, k) && (|rest[take..]| == 0 <==> IsLast(data, k))
            && Sealing(a, prefix, data, k + 1, rest[take..], out + SealedChunk(a, prefix, data, k))
  {
  }

  lemma SealingStarts(a: Aead, prefix: seq<byte>, data: seq<byte>)
    requires |data| > 0
    ensures Sealing(a, prefix, data, 0, data, Header(prefix))
  {
  }

  /** Seal every chunk of a non-empty file. */
  method SealAll(a: Aead, prefix: seq<byte>, data: seq<byte>) returns (r: Result<seq<byte>, CryptoError>)
    requires |prefix| == PREFIX_LEN && |data| > 0
    ensures r == if ChunkCount(|data|) < TWO32 then Ok(Blob(a, prefix, data)) else Err(CounterOverflow)
  {
    var enc := new Encryptor(a, prefix);
    var out := Header(prefix);
    var rest := data;
    ghost var k := 0;
    SealingStarts(a, prefix, data);
    while |rest| > 0
      invariant Sealing(a, prefix, data, k, rest, out)
      invariant enc.counter == k < TWO32
      decreases |rest|
    {
      SealOneMore(a, prefix, data, k, rest, out);
      var take := Min(CHUNK, |rest|);
      var chunk := rest[..take];
      rest := rest[take..];
      var c := enc.SealChunk(chunk, |rest| == 0);
      if c.Err? { return c; }
      out := out + c.value;
      k := k + 1;
    }
    r := Ok(out);
  }

  /** One-shot encryption produces exactly the format, and fails exactly when the counter runs out. */
  method EncryptBytes(a: Aead, prefix: seq<byte>, data: seq<byte>) returns (r: Result<seq<byte>, CryptoError>)
    requires |prefix| == PREFIX_LEN
    ensures r == if ChunkCount(|data|) < TWO32 then Ok(Blob(a, prefix, data)) else Err(CounterOverflow)
  {
    if |data| == 0 {
      var enc := new Encryptor(a, prefix);
      var c := enc.SealChunk([], true);
      EmptyFile(a, prefix);
      if c.Err? { return c; }
      return Ok(Header(prefix) + c.value);
    }
    r := SealAll(a, prefix, data);
  }

  lemma OpenOneMore(a: Aead, blob: seq<byte>, n: nat, last: nat, i: nat, out: seq<byte>,
                    c: Result<seq<byte>, CryptoError>)
    requires i < n && last <= CIPHER_CHUNK && |blob| == HEADER_LEN + (n - 1) * CIPHER_CHUNK + last
    requires var off := HEADER_LEN + i * CIPHER_CHUNK;
             c == OpenAt(a, blob[4..HEADER_LEN], i, blob[off..off + CipherChunkLen(n, last, i)], i + 1 == n)
    ensures Prepend(out, OpenFrom(a, blob, n, last, i)) ==
            if c.Err? then c else Prepend(out + c.value, OpenFrom(a, blob, n, last, i + 1))
  {
    if c.Ok? { PrependTwice(out, c.value, OpenFrom(a, blob, n, last, i + 1)); }
  }

  /** Offset of chunk i; the offset past the last chunk is the blob's length. */
  function ChunkOffset(n: nat, last: nat, i: nat): (off: int)
  {
    if i == n then HEADER_LEN + (n - 1) * CIPHER_CHUNK + last else HEADER_LEN + i * CIPHER_CHUNK
  }

  lemma NextOffset(n: nat, last: nat, i: nat)
    requires i < n && last <= CIPHER_CHUNK
    ensures ChunkOffset(n, last, i) + CipherChunkLen(n, last, i) ==
            ChunkOffset(n, last, i + 1) <= ChunkOffset(n, last, n)
  {
  }

  /** The decrypt loop over a framed blob: computes the reference and stops exactly at the end. */
  method OpenChunks(a: Aead, blob: seq<byte>, n: nat, last: nat)
    returns (r: Result<seq<byte>, CryptoError>, consumed: nat)
    requires n >= 1 && last <= CIPHER_CHUNK && |blob| == HEADER_LEN + (n - 1) * CIPHER_CHUNK + last
    ensures r == OpenFrom(a, blob, n, last, 0)
    ensures r.Ok? ==> consumed == |blob|
  {
    var dec := new Decryptor(a, blob[4..HEADER_LEN]);
    var out := [];
    consumed := HEADER_LEN;
    var i := 0;
    PrependNothing(OpenFrom(a, blob, n, last, 0));
    while i < n
      invariant i <= n && consumed == ChunkOffset(n, last, i)
      invariant dec.counter == i < TWO32
      invariant OpenFrom(a, blob, n, last, 0) == Prepend(out, OpenFrom(a, blob, n, last, i))
    {
      var len := if i + 1 == n then last else CIPHER_CHUNK;
      var c := dec.OpenChunk(blob[consumed..consumed + len], i + 1 == n);
      OpenOneMore(a, blob, n, last, i, out, c);
      NextOffset(n, last, i);
      if c.Err? { return c, consumed; }
      out := out + c.value;
      consumed := consumed + len;
      i := i + 1;
    }
    assert out + [] == out;
    r := Ok(out);
  }

  /** One-shot decryption computes the reference, and an accepted blob is consumed to its last byte. */
  method DecryptBytes(a: Aead, blob: seq<byte>) returns (r: Result<seq<byte>, CryptoError>, consumed: nat)
    ensures r == Decrypt(a, blob)
    ensures r.Ok? ==> consumed == |blob|
  {
    var layout := ChunkLayout(|blob|);
    if layout.Err? { return Err(Framing(layout.error)), 0; }
    var (n, last) := layout.value;
    if !GoodHeader(blob) { return Err(BadHeader), 0; }
    LayoutCovers(|blob|);
    r, consumed := OpenChunks(a, blob, n, last);
  }

  /** The file's own chunk opens at its own place. */
  lemma OwnChunkOpens(a: Aead, prefix: seq<byte>, data: seq<byte>, i: nat)
    requires OpensFile(a, prefix, data) && i < ChunkCount(|data|) < TWO32
    ensures OpenAt(a, prefix, i, SealedChunk(a, prefix, data, i), i + 1 == ChunkCount(|data|)) ==
            Ok(PlainChunk(data, i))
  {
  }

  lemma OpenOwnChunk(a: Aead, prefix: seq<byte>, data: seq<byte>, last: nat, i: nat)
    requires TagLengths(a) && |prefix| == PREFIX_LEN && OpensFile(a, prefix, data)
    requires i < ChunkCount(|data|) < TWO32 && last == |data| - (ChunkCount(|data|) - 1) * CHUNK + TAG
    requires |Blob(a, prefix, data)| == HEADER_LEN + (ChunkCount(|data|) - 1) * CIPHER_CHUNK + last
    ensures var n, blob := ChunkCount(|data|), Blob(a, prefix, data);
            OpenFrom(a, blob, n, last, i) == Prepend(PlainChunk(data, i), OpenFrom(a, blob, n, last, i + 1))
  {
    BlobSlice(a, prefix, data, i);
    assert Blob(a, prefix, data)[4..HEADER_LEN] == prefix;
    OwnChunkOpens(a, prefix, data, i);
  }

  lemma {:induction false} OpenFromBlob(a: Aead, prefix: seq<byte>, data: seq<byte>, last: nat, i: nat)
    requires TagLengths(a) && |prefix| == PREFIX_LEN && OpensFile(a, prefix, data)
    requires i <= ChunkCount(|data|) < TWO32 && last == |data| - (ChunkCount(|data|) - 1) * CHUNK + TAG
    requires |Blob(a, prefix, data)| == HEADER_LEN + (ChunkCount(|data|) - 1) * CIPHER_CHUNK + last
    ensures OpenFrom(a, Blob(a, prefix, data), ChunkCount(|data|), last, i) == Ok(data[Min(i * CHUNK, |data|)..])
    decreases ChunkCount(|data|) - i
  {
    if i < ChunkCount(|data|) {
      OpenOwnChunk(a, prefix, data, last, i);
      OpenFromBlob(a, prefix, data, last, i + 1);
      ChunkEnds(|data|, i);
      PlainSplit(data, i);
    } else {
      assert data[|data|..] == [];
    }
  }

  /** Decrypting what was encrypted gives the file back, whatever the file (up to the 32-bit counter). */
  lemma RoundTrip(a: Aead, prefix: seq<byte>, data: seq<byte>)
    requires TagLengths(a) && |prefix| == PREFIX_LEN && OpensFile(a, prefix, data)
    requires ChunkCount(|data|) < TWO32
    ensures Decrypt(a, Blob(a, prefix, data)) == Ok(data)
    ensures |Blob(a, prefix, data)| == CipherLen(|data|)
  {
    BlobLength(a, prefix, data);
    LayoutOfCipherLen(|data|);
    var blob, n := Blob(a, prefix, data), ChunkCount(|data|);
    var last := |data| - (n - 1) * CHUNK + TAG;
    assert |blob| == HEADER_LEN + (n - 1) * CIPHER_CHUNK + last;
    assert GoodHeader(blob);
    assert Decrypt(a, blob) == OpenFrom(a, blob, n, last, 0);
    OpenFromBlob(a, prefix, data, last, 0);
    assert data[0..] == data;
  }
}
