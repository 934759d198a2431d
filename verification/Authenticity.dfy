/**
 * What the sealed format guarantees against a storage provider that may hand back any bytes.
 * The cipher is ideal: it opens only (nonce, ciphertext) pairs that were sealed, and the log of
 * sealed pairs may hold any other files as long as they use other prefixes.
 */
module Authenticity {
  import opened Prelude
  import opened Layout
  import opened Crypto

  type Log = iset<(Nonce, seq<byte>)>

  ghost predicate OpensOnlyLogged(a: Aead, log: Log)
  {
    forall n, x :: a.open(n, x).Some? ==> (n, x) in log
  }

  /** Chunk i of the file as it stands in the log. */
  ghost function Sealed(a: Aead, prefix: seq<byte>, data: seq<byte>, i: nat): (Nonce, seq<byte>)
    requires i < ChunkCount(|data|)
  {
    (FileNonce(prefix, data, i), SealedChunk(a, prefix, data, i))
  }

  /** Under this prefix nothing but this one file was ever sealed. */
  ghost predicate PrefixIsFile(a: Aead, log: Log, prefix: seq<byte>, data: seq<byte>)
  {
    forall n, x :: (n, x) in log && |n| == PREFIX_LEN + 4 && n[..PREFIX_LEN] == prefix ==>
      exists i: nat :: i < ChunkCount(|data|) && (n, x) == Sealed(a, prefix, data, i)
  }

  ghost predicate Setting(a: Aead, log: Log, prefix: seq<byte>, data: seq<byte>)
  {
    && |prefix| == PREFIX_LEN
    && ChunkCount(|data|) < TWO32
    && TagLengths(a)
    && OpensFile(a, prefix, data)
    && OpensOnlyLogged(a, log)
    && PrefixIsFile(a, log, prefix, data)
  }

  predicate HasHeader(blob: seq<byte>, prefix: seq<byte>)
  {
    |blob| >= HEADER_LEN && blob[..HEADER_LEN] == Header(prefix)
  }

  /** The bytes where the header keeps the prefix are the file's prefix; the magic bytes before it may be any. */
  predicate Carries(blob: seq<byte>, prefix: seq<byte>)
  {
    |blob| >= HEADER_LEN && blob[4..HEADER_LEN] == prefix
  }

  lemma AcceptedHeader(a: Aead, prefix: seq<byte>, blob: seq<byte>)
    requires |prefix| == PREFIX_LEN && Carries(blob, prefix) && Decrypt(a, blob).Ok?
    ensures HasHeader(blob, prefix)
  {
    assert blob[..HEADER_LEN] == blob[..4] + blob[4..HEADER_LEN];
  }

  // ---------------------------------------------------------------- nonces

  lemma BigEndianInjective(c: nat, d: nat)
    requires c < TWO32 && d < TWO32 && BigEndian32(c) == BigEndian32(d)
    ensures c == d
  {
    BigEndianValue(c);
    BigEndianValue(d);
  }

  lemma BigEndianValue(c: nat)
    requires c < TWO32
    ensures var b := BigEndian32(c); c == ((b[0] as int * 256 + b[1]) * 256 + b[2]) * 256 + b[3]
  {
  }

  /** A nonce is the prefix followed by the counter in big-endian order, with its top bit set on the last chunk. */
  lemma NonceBytes(prefix: seq<byte>, counter: nat, last: bool)
    requires counter < TWO32
    ensures var n := ChunkNonce(prefix, counter, last);
            && |n| == |prefix| + 4 && n[..|prefix|] == prefix
            && var b := n[|prefix|..];
               ((b[0] as int * 256 + b[1]) * 256 + b[2]) * 256 + b[3] ==
               if last && counter < 0x8000_0000 then counter + 0x8000_0000 else counter
  {
    var n := ChunkNonce(prefix, counter, last);
    assert n[|prefix|..] == BigEndian32(NonceCounter(counter, last));
    BigEndianValue(NonceCounter(counter, last));
  }

  lemma NonceInjective(prefix: seq<byte>, i: nat, il: bool, j: nat, jl: bool)
    requires i < TWO32 && j < TWO32 && ChunkNonce(prefix, i, il) == ChunkNonce(prefix, j, jl)
    ensures NonceCounter(i, il) == NonceCounter(j, jl)
  {
    var n := ChunkNonce(prefix, i, il);
    assert n[|prefix|..] == BigEndian32(NonceCounter(i, il));
    assert n[|prefix|..] == BigEndian32(NonceCounter(j, jl));
    BigEndianInjective(NonceCounter(i, il), NonceCounter(j, jl));
  }

  /** No nonce is used twice within one file, up to the largest file the counter admits. */
  lemma NoncesDistinct(prefix: seq<byte>, data: seq<byte>, i: nat, j: nat)
    requires i < ChunkCount(|data|) && j < ChunkCount(|data|) && ChunkCount(|data|) < TWO32
    requires FileNonce(prefix, data, i) == FileNonce(prefix, data, j)
    ensures i == j
  {
    NonceInjective(prefix, i, IsLast(data, i), j, IsLast(data, j));
  }

  // ---------------------------------------------------------------- accepted blobs

  /** A chunk accepted at a counter is one of the file's sealed chunks, and its nonce counter matches. */
  lemma AcceptedChunk(a: Aead, log: Log, prefix: seq<byte>, data: seq<byte>, k: nat, x: seq<byte>, last: bool)
    returns (j: nat)
    requires Setting(a, log, prefix, data)
    requires OpenAt(a, prefix, k, x, last).Ok?
    ensures j < ChunkCount(|data|) && x == SealedChunk(a, prefix, data, j)
    ensures k < TWO32 - 1 && NonceCounter(k, last) == NonceCounter(j, IsLast(data, j))
  {
    var n := ChunkNonce(prefix, k, last);
    assert a.open(n, x).Some?;
    assert (n, x) in log;
    assert n[..PREFIX_LEN] == prefix;
    j :| j < ChunkCount(|data|) && (n, x) == Sealed(a, prefix, data, j);
    NonceInjective(prefix, k, last, j, IsLast(data, j));
  }

  function Slice(blob: seq<byte>, n: nat, last: nat, k: nat): (x: seq<byte>)
    requires k < n && last <= CIPHER_CHUNK && |blob| == HEADER_LEN + (n - 1) * CIPHER_CHUNK + last
  {
    blob[HEADER_LEN + k * CIPHER_CHUNK..HEADER_LEN + k * CIPHER_CHUNK + CipherChunkLen(n, last, k)]
  }

  ghost predicate AllOpen(a: Aead, prefix: seq<byte>, blob: seq<byte>, n: nat, last: nat)
  {
    && n >= 1 && last <= CIPHER_CHUNK && |blob| == HEADER_LEN + (n - 1) * CIPHER_CHUNK + last
    && forall k: nat | k < n :: OpenAt(a, prefix, k, Slice(blob, n, last, k), k + 1 == n).Ok?
  }

  lemma {:induction false} EveryChunkOpened(a: Aead, blob: seq<byte>, n: nat, last: nat, i: nat, k: nat)
    requires i <= k < n && last <= CIPHER_CHUNK && |blob| == HEADER_LEN + (n - 1) * CIPHER_CHUNK + last
    requires OpenFrom(a, blob, n, last, i).Ok?
    ensures OpenAt(a, blob[4..HEADER_LEN], k, Slice(blob, n, last, k), k + 1 == n).Ok?
    decreases n - i
  {
    if i < k { EveryChunkOpened(a, blob, n, last, i + 1, k); }
  }

  /** The blob, seen as an accepted sequence of chunks under the file's prefix. */
  lemma AcceptedShape(a: Aead, prefix: seq<byte>, blob: seq<byte>) returns (n: nat, last: nat)
    requires |prefix| == PREFIX_LEN && HasHeader(blob, prefix) && Decrypt(a, blob).Ok?
    ensures AllOpen(a, prefix, blob, n, last)
  {
    LayoutCovers(|blob|);
    n, last := ChunkLayout(|blob|).value.0, ChunkLayout(|blob|).value.1;
    assert blob[4..HEADER_LEN] == blob[..HEADER_LEN][4..] == prefix;
    forall k: nat | k < n
      ensures OpenAt(a, prefix, k, Slice(blob, n, last, k), k + 1 == n).Ok?
    {
      EveryChunkOpened(a, blob, n, last, 0, k);
    }
  }

  lemma OpenInside(a: Aead, log: Log, prefix: seq<byte>, data: seq<byte>, blob: seq<byte>, n: nat, last: nat, k: nat)
    returns (j: nat)
    requires Setting(a, log, prefix, data) && AllOpen(a, prefix, blob, n, last) && k < n
    ensures j < ChunkCount(|data|) && Slice(blob, n, last, k) == SealedChunk(a, prefix, data, j)
    ensures k < TWO32 - 1 && NonceCounter(k, k + 1 == n) == NonceCounter(j, IsLast(data, j))
  {
    j := AcceptedChunk(a, log, prefix, data, k, Slice(blob, n, last, k), k + 1 == n);
  }

  /** Up to 2^31 chunks the last flag pins the number of chunks: neither truncation nor extension is accepted. */
  lemma SameChunkCount(a: Aead, log: Log, prefix: seq<byte>, data: seq<byte>, blob: seq<byte>, n: nat, last: nat)
    requires Setting(a, log, prefix, data) && ChunkCount(|data|) <= TWO31 && AllOpen(a, prefix, blob, n, last)
    ensures n == ChunkCount(|data|)
  {
    var size := ChunkCount(|data|);
    var j := OpenInside(a, log, prefix, data, blob, n, last, n - 1);
    if size < n {
      var i := OpenInside(a, log, prefix, data, blob, n, last, size - 1);
    }
  }

  /** A chunk accepted in place is the file's own chunk at that place. */
  lemma AcceptedInPlace(a: Aead, log: Log, prefix: seq<byte>, data: seq<byte>, blob: seq<byte>, last: nat, k: nat)
    requires Setting(a, log, prefix, data) && AllOpen(a, prefix, blob, ChunkCount(|data|), last)
    requires k < ChunkCount(|data|)
    ensures Slice(blob, ChunkCount(|data|), last, k) == SealedChunk(a, prefix, data, k)
  {
    var j := OpenInside(a, log, prefix, data, blob, ChunkCount(|data|), last, k);
    assert j == k;
  }

  function EndOf(n: nat, last: nat, k: nat): (e: nat)
    requires n >= 1
  {
    if k == n then HEADER_LEN + (n - 1) * CIPHER_CHUNK + last else HEADER_LEN + k * CIPHER_CHUNK
  }

  ghost predicate InPlace(a: Aead, prefix: seq<byte>, data: seq<byte>, blob: seq<byte>, last: nat)
  {
    && last <= CIPHER_CHUNK && |blob| == HEADER_LEN + (ChunkCount(|data|) - 1) * CIPHER_CHUNK + last
    && forall k: nat | k < ChunkCount(|data|) ::
      Slice(blob, ChunkCount(|data|), last, k) == SealedChunk(a, prefix, data, k)
  }

  lemma {:induction false} BodyOfInPlace(a: Aead, prefix: seq<byte>, data: seq<byte>, blob: seq<byte>, last: nat,
                                         k: nat)
    requires InPlace(a, prefix, data, blob, last) && k <= ChunkCount(|data|)
    ensures EndOf(ChunkCount(|data|), last, k) <= |blob|
    ensures Body(a, prefix, data, k) == blob[HEADER_LEN..EndOf(ChunkCount(|data|), last, k)]
  {
    var n := ChunkCount(|data|);
    if k > 0 {
      BodyOfInPlace(a, prefix, data, blob, last, k - 1);
      assert Slice(blob, n, last, k - 1) == SealedChunk(a, prefix, data, k - 1);
      SliceJoin(blob, HEADER_LEN, EndOf(n, last, k - 1), EndOf(n, last, k));
    }
  }

  lemma SliceJoin(s: seq<byte>, lo: nat, mid: nat, hi: nat)
    requires lo <= mid <= hi <= |s|
    ensures s[lo..mid] + s[mid..hi] == s[lo..hi]
  {
  }

  /** Up to 2^31 chunks, the only acceptable bytes that carry a file's prefix are the file's own. */
  lemma AcceptedIsOriginal(a: Aead, log: Log, prefix: seq<byte>, data: seq<byte>, blob: seq<byte>)
    requires Setting(a, log, prefix, data) && ChunkCount(|data|) <= TWO31
    requires Carries(blob, prefix) && Decrypt(a, blob).Ok?
    ensures blob == Blob(a, prefix, data)
  {
    AcceptedHeader(a, prefix, blob);
    var n, last := AcceptedShape(a, prefix, blob);
    SameChunkCount(a, log, prefix, data, blob, n, last);
    forall k: nat | k < n ensures Slice(blob, n, last, k) == SealedChunk(a, prefix, data, k) {
      AcceptedInPlace(a, log, prefix, data, blob, last, k);
    }
    BodyOfInPlace(a, prefix, data, blob, last, n);
    assert blob == blob[..HEADER_LEN] + blob[HEADER_LEN..];
  }

  // ---------------------------------------------------------------- the bound is tight

  /** Past 2^31 chunks: keep the first chunks and splice the real last chunk in as an earlier last one. */
  ghost function Spliced(a: Aead, prefix: seq<byte>, data: seq<byte>): (blob: seq<byte>)
    requires ChunkCount(|data|) > TWO31
  {
    var n := ChunkCount(|data|);
    Header(prefix) + Body(a, prefix, data, n - TWO31 - 1) + SealedChunk(a, prefix, data, n - 1)
  }

  lemma SplicedShape(a: Aead, prefix: seq<byte>, data: seq<byte>)
    requires |prefix| == PREFIX_LEN && TagLengths(a) && ChunkCount(|data|) > TWO31
    ensures var last := |SealedChunk(a, prefix, data, ChunkCount(|data|) - 1)|;
            TAG < last <= CIPHER_CHUNK
            && |Spliced(a, prefix, data)| == HEADER_LEN + (ChunkCount(|data|) - TWO31 - 1) * CIPHER_CHUNK + last
  {
    BodyLength(a, prefix, data, ChunkCount(|data|) - TWO31 - 1);
    assert |PlainChunk(data, ChunkCount(|data|) - 1)| > 0;
  }

  lemma EarlySlice(h: seq<byte>, b: seq<byte>, t: seq<byte>, m: nat, last: nat, k: nat)
    requires |h| == HEADER_LEN && m >= 1 && |b| == (m - 1) * CIPHER_CHUNK && |t| == last <= CIPHER_CHUNK && k < m - 1
    ensures Slice(h + b + t, m, last, k) == b[k * CIPHER_CHUNK..k * CIPHER_CHUNK + CIPHER_CHUNK]
  {
  }

  lemma SplicedEarlySlice(a: Aead, prefix: seq<byte>, data: seq<byte>, last: nat, k: nat)
    requires |prefix| == PREFIX_LEN && TagLengths(a) && ChunkCount(|data|) > TWO31
    requires k < ChunkCount(|data|) - TWO31 - 1
    requires last == |SealedChunk(a, prefix, data, ChunkCount(|data|) - 1)| <= CIPHER_CHUNK
    requires |Spliced(a, prefix, data)| == HEADER_LEN + (ChunkCount(|data|) - TWO31 - 1) * CIPHER_CHUNK + last
    ensures Slice(Spliced(a, prefix, data), ChunkCount(|data|) - TWO31, last, k) == SealedChunk(a, prefix, data, k)
  {
    var m := ChunkCount(|data|) - TWO31;
    BodyLength(a, prefix, data, m - 1);
    BodySlice(a, prefix, data, m - 1, k);
    SealedLength(a, prefix, data, k);
    EarlySlice(Header(prefix), Body(a, prefix, data, m - 1), SealedChunk(a, prefix, data, ChunkCount(|data|) - 1), m,
      last, k);
  }

  lemma SplicedLastSlice(a: Aead, prefix: seq<byte>, data: seq<byte>, last: nat)
    requires |prefix| == PREFIX_LEN && TagLengths(a) && ChunkCount(|data|) > TWO31
    requires last == |SealedChunk(a, prefix, data, ChunkCount(|data|) - 1)| <= CIPHER_CHUNK
    requires |Spliced(a, prefix, data)| == HEADER_LEN + (ChunkCount(|data|) - TWO31 - 1) * CIPHER_CHUNK + last
    ensures Slice(Spliced(a, prefix, data), ChunkCount(|data|) - TWO31, last, ChunkCount(|data|) - TWO31 - 1) ==
            SealedChunk(a, prefix, data, ChunkCount(|data|) - 1)
  {
  }

  lemma SplicedSlice(a: Aead, prefix: seq<byte>, data: seq<byte>, last: nat, k: nat)
    requires |prefix| == PREFIX_LEN && TagLengths(a) && ChunkCount(|data|) > TWO31
    requires k < ChunkCount(|data|) - TWO31
    requires last == |SealedChunk(a, prefix, data, ChunkCount(|data|) - 1)| <= CIPHER_CHUNK
    requires |Spliced(a, prefix, data)| == HEADER_LEN + (ChunkCount(|data|) - TWO31 - 1) * CIPHER_CHUNK + last
    ensures Slice(Spliced(a, prefix, data), ChunkCount(|data|) - TWO31, last, k) ==
            SealedChunk(a, prefix, data, if k + 1 == ChunkCount(|data|) - TWO31 then ChunkCount(|data|) - 1 else k)
  {
    if k + 1 < ChunkCount(|data|) - TWO31 {
      SplicedEarlySlice(a, prefix, data, last, k);
    } else {
      SplicedLastSlice(a, prefix, data, last);
    }
  }

  lemma SealedLength(a: Aead, prefix: seq<byte>, data: seq<byte>, k: nat)
    requires TagLengths(a) && k < ChunkCount(|data|) - 1
    ensures |SealedChunk(a, prefix, data, k)| == CIPHER_CHUNK
  {
  }

  lemma {:induction false} SplicedOpens(a: Aead, prefix: seq<byte>, data: seq<byte>, last: nat, i: nat)
    requires |prefix| == PREFIX_LEN && TagLengths(a) && TWO31 < ChunkCount(|data|) < TWO32 && OpensFile(a, prefix, data)
    requires last == |SealedChunk(a, prefix, data, ChunkCount(|data|) - 1)| <= CIPHER_CHUNK
    requires i <= ChunkCount(|data|) - TWO31
    requires |Spliced(a, prefix, data)| == HEADER_LEN + (ChunkCount(|data|) - TWO31 - 1) * CIPHER_CHUNK + last
    ensures OpenFrom(a, Spliced(a, prefix, data), ChunkCount(|data|) - TWO31, last, i).Ok?
    decreases ChunkCount(|data|) - i
  {
    var n, m := ChunkCount(|data|), ChunkCount(|data|) - TWO31;
    if i < m {
      SplicedOpens(a, prefix, data, last, i + 1);
      SplicedSlice(a, prefix, data, last, i);
      var j := if i + 1 == m then n - 1 else i;
      assert ChunkNonce(prefix, i, i + 1 == m) == FileNonce(prefix, data, j);
      assert Spliced(a, prefix, data)[4..HEADER_LEN] == prefix;
    }
  }

  /** Past 2^31 chunks a shorter blob that was never produced is accepted. */
  lemma SplicedAccepted(a: Aead, prefix: seq<byte>, data: seq<byte>)
    requires |prefix| == PREFIX_LEN && TagLengths(a) && TWO31 < ChunkCount(|data|) < TWO32 && OpensFile(a, prefix, data)
    ensures var b := Spliced(a, prefix, data);
            HasHeader(b, prefix) && Decrypt(a, b).Ok? && b != Blob(a, prefix, data)
  {
    var m := ChunkCount(|data|) - TWO31;
    var last := |SealedChunk(a, prefix, data, ChunkCount(|data|) - 1)|;
    SplicedShape(a, prefix, data);
    LayoutUnique(m, last);
    SplicedOpens(a, prefix, data, last, 0);
    SplicedHeader(a, prefix, data);
    DecryptIs(a, Spliced(a, prefix, data), m, last);
    SplicedShorter(a, prefix, data);
  }

  lemma SplicedHeader(a: Aead, prefix: seq<byte>, data: seq<byte>)
    requires |prefix| == PREFIX_LEN && ChunkCount(|data|) > TWO31
    ensures HasHeader(Spliced(a, prefix, data), prefix) && GoodHeader(Spliced(a, prefix, data))
  {
  }

  lemma DecryptIs(a: Aead, b: seq<byte>, n: nat, last: nat)
    requires GoodHeader(b) && ChunkLayout(|b|) == Ok((n, last)) && n >= 1
             && |b| == HEADER_LEN + (n - 1) * CIPHER_CHUNK + last && last <= CIPHER_CHUNK
    ensures Decrypt(a, b) == OpenFrom(a, b, n, last, 0)
  {
  }

  lemma SplicedShorter(a: Aead, prefix: seq<byte>, data: seq<byte>)
    requires |prefix| == PREFIX_LEN && TagLengths(a) && TWO31 < ChunkCount(|data|)
    ensures Spliced(a, prefix, data) != Blob(a, prefix, data)
  {
    SplicedShape(a, prefix, data);
    BlobLength(a, prefix, data);
  }

  /**
   * Exact strength of the last-chunk flag: of all blobs that carry the file's prefix its own is the only one accepted
   * if and only if the file has at most 2^31 chunks.
   */
  lemma TamperEvidentIffAtMost2To31Chunks(a: Aead, log: Log, prefix: seq<byte>, data: seq<byte>)
    requires Setting(a, log, prefix, data)
    ensures (forall b :: Carries(b, prefix) && Decrypt(a, b).Ok? ==> b == Blob(a, prefix, data))
            <==> ChunkCount(|data|) <= TWO31
  {
    if ChunkCount(|data|) <= TWO31 {
      forall b | Carries(b, prefix) && Decrypt(a, b).Ok?
        ensures b == Blob(a, prefix, data)
      {
        AcceptedIsOriginal(a, log, prefix, data, b);
      }
    } else {
      SplicedAccepted(a, prefix, data);
      assert Carries(Spliced(a, prefix, data), prefix);
    }
  }

  /** The setting is not empty: every prefix and file admits an ideal cipher and its log. */
  lemma SettingExists(prefix: seq<byte>, data: seq<byte>) returns (a: Aead, log: Log)
    requires |prefix| == PREFIX_LEN && ChunkCount(|data|) < TWO32
    ensures Setting(a, log, prefix, data)
  {
    var seal := (n: Nonce, p: seq<byte>) => p + seq(TAG, _ => 0 as byte);
    var count := ChunkCount(|data|);
    ghost var isChunk := (n: Nonce, x: seq<byte>) =>
      exists i: nat :: i < count && n == FileNonce(prefix, data, i) && x == seal(n, PlainChunk(data, i));
    var open := (n: Nonce, x: seq<byte>) =>
      if isChunk(n, x) && |x| >= TAG then Some(x[..|x| - TAG]) else None;
    a := Aead(seal, open);
    log := iset n: Nonce, x: seq<byte> | a.open(n, x).Some? :: (n, x);
    assert TagLengths(a);
    forall i: nat | i < count
      ensures a.open(FileNonce(prefix, data, i), SealedChunk(a, prefix, data, i)) == Some(PlainChunk(data, i))
    {
      var n, x := FileNonce(prefix, data, i), SealedChunk(a, prefix, data, i);
      assert isChunk(n, x);
      assert x[..|x| - TAG] == PlainChunk(data, i);
    }
    forall n, x | (n, x) in log
      ensures exists i: nat :: i < count && (n, x) == Sealed(a, prefix, data, i)
    {
      assert isChunk(n, x);
      var i: nat :| i < count && n == FileNonce(prefix, data, i) && x == seal(n, PlainChunk(data, i));
      assert (n, x) == Sealed(a, prefix, data, i);
    }
  }
}
