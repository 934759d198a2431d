/**
 * Streaming multipart upload: the file is read with arbitrary short reads, sealed chunk by chunk
 * and cut into parts. The result is compared with one-shot encryption of the whole file.
 */
module Upload {
  import opened Prelude
  import opened Layout
  import opened Crypto

  const MIB: nat := 0x10_0000
  const S3_MIN_PART: nat := 5 * MIB

  datatype UploadError = Cancelled | Seal(e: CryptoError) | BelowMinimum

  datatype Part = Part(number: int, bytes: seq<byte>)

  /** The cipher and the random prefix of an encrypted session. */
  datatype Vault = Vault(aead: Aead, prefix: seq<byte>)

  /** The part size in bytes; the product is a 64-bit word. */
  function PartSize(mib: nat): (n: nat) { Max(mib, 5) * MIB % TWO64 }

  /**
   * The configured part size honours the 5 MiB minimum exactly when the product does not wrap below it; it is what was
   * configured, from the minimum on and as long as the product fits.
   */
  lemma PartSizeFloor(mib: nat)
    ensures PartSize(mib) >= S3_MIN_PART <==> mib < 5 || mib % TWO44 >= 5
    ensures mib < 5 ==> PartSize(mib) == 5 * MIB
    ensures 5 <= mib < TWO44 ==> PartSize(mib) == mib * MIB
  {
  }

  /** What one-shot processing of the whole file would store. */
  ghost function Wire(vault: Option<Vault>, data: seq<byte>): (w: seq<byte>)
  {
    WireUpTo(vault, data, ChunkCount(|data|))
  }

  /** The part of it that belongs to the first k chunks. */
  ghost function WireUpTo(vault: Option<Vault>, data: seq<byte>, k: nat): (w: seq<byte>)
    requires k <= ChunkCount(|data|)
  {
    match vault
    case None => data[..Min(k * CHUNK, |data|)]
    case Some(v) => Header(v.prefix) + Body(v.aead, v.prefix, data, k)
  }

  lemma WireIsOneShot(vault: Option<Vault>, data: seq<byte>)
    ensures Wire(vault, data) == if vault.None? then data else Blob(vault.value.aead, vault.value.prefix, data)
  {
  }

  function Concat(parts: seq<Part>): (w: seq<byte>)
  {
    if parts == [] then [] else Concat(parts[..|parts| - 1]) + parts[|parts| - 1].bytes
  }

  /** Numbered from 1, none too large, and every part of at least the part size. */
  predicate FullParts(parts: seq<Part>, partSize: nat)
  {
    forall i | 0 <= i < |parts| ::
      parts[i].number == i + 1 && partSize <= |parts[i].bytes| < partSize + CIPHER_CHUNK
  }

  /** As FullParts, but the last part may be short. */
  predicate WellCut(parts: seq<Part>, partSize: nat)
  {
    |parts| > 0 && FullParts(parts[..|parts| - 1], partSize)
    && parts[|parts| - 1].number == |parts| && |parts[|parts| - 1].bytes| < partSize + CIPHER_CHUNK
  }

  /** Fill one chunk buffer; each read returns any positive number of available bytes, zero only at the end. */
  method ReadChunk(data: seq<byte>, pos: nat) returns (chunk: seq<byte>)
    requires pos <= |data|
    ensures chunk == data[pos..Min(pos + CHUNK, |data|)]
  {
    chunk := [];
    while |chunk| < CHUNK
      invariant |chunk| <= CHUNK && pos + |chunk| <= |data| && chunk == data[pos..pos + |chunk|]
      decreases CHUNK - |chunk|
    {
      var at := pos + |chunk|;
      if at == |data| { break; } // end of file
      var most := Min(CHUNK - |chunk|, |data| - at);
      var n :| 1 <= n <= most;
      chunk := chunk + data[at..at + n];
    }
  }

  /** The encryptor, if any, has sealed exactly the first k chunks. */
  ghost predicate AtChunk(enc: Encryptor?, vault: Option<Vault>, k: nat)
    reads enc
  {
    && (enc == null) == vault.None?
    && (enc != null ==> enc.counter == k < TWO32 && enc.aead == vault.value.aead && enc.prefix == vault.value.prefix)
  }

  /** Sealing (or copying) chunk k extends the stored form by exactly that chunk. */
  method StoreChunk(enc: Encryptor?, ghost vault: Option<Vault>, ghost data: seq<byte>, ghost k: nat, chunk: seq<byte>,
                    last: bool)
    returns (r: Result<seq<byte>, CryptoError>)
    requires k < ChunkCount(|data|) && chunk == PlainChunk(data, k) && last == IsLast(data, k)
    requires AtChunk(enc, vault, k) && (vault.Some? ==> TagLengths(vault.value.aead))
    modifies enc
    ensures r.Err? <==> enc != null && k == TWO32 - 1
    ensures r.Ok? ==> WireUpTo(vault, data, k + 1) == WireUpTo(vault, data, k) + r.value
    ensures r.Ok? ==> |r.value| <= CIPHER_CHUNK && AtChunk(enc, vault, k + 1)
  {
    if enc == null {
      r := Ok(chunk);
      ChunkEnds(|data|, k);
      PlainSplit(data, k);
    } else {
      r := enc.SealChunk(chunk, last);
      BodyGrows(vault.value.aead, vault.value.prefix, data, k);
    }
  }

  /** Between two iterations: only full parts were sent and the buffer is below the part size. */
  predicate Pending(parts: seq<Part>, buf: seq<byte>, partSize: nat)
  {
    partSize >= S3_MIN_PART ==> FullParts(parts, partSize) && |buf| < partSize
  }

  lemma PushFull(parts: seq<Part>, p: Part, partSize: nat)
    requires FullParts(parts, partSize) && p.number == |parts| + 1 && partSize <= |p.bytes| < partSize + CIPHER_CHUNK
    ensures FullParts(parts + [p], partSize)
  {
  }

  lemma PushLast(parts: seq<Part>, p: Part, partSize: nat)
    requires FullParts(parts, partSize) && p.number == |parts| + 1 && |p.bytes| < partSize + CIPHER_CHUNK
    ensures WellCut(parts + [p], partSize)
  {
  }

  lemma PushKeepsBytes(parts: seq<Part>, buf: seq<byte>, piece: seq<byte>, number: int)
    ensures Concat(parts) + (buf + piece) == Concat(parts) + buf + piece
    ensures Concat(parts + [Part(number, buf + piece)]) + [] == Concat(parts) + buf + piece
  {
  }

  /** Append one stored chunk and send a part when the buffer is full or the file ended. */
  method AppendPiece(parts: seq<Part>, buf: seq<byte>, piece: seq<byte>, last: bool, partSize: nat)
    returns (ok: bool, parts': seq<Part>, buf': seq<byte>)
    requires Pending(parts, buf, partSize) && |piece| <= CIPHER_CHUNK
    ensures !ok <==> !last && partSize <= |buf| + |piece| < S3_MIN_PART
    ensures ok ==> Concat(parts') + buf' == Concat(parts) + buf + piece
    ensures ok && !last ==> Pending(parts', buf', partSize)
    ensures ok && last ==> buf' == [] && (partSize >= S3_MIN_PART ==> WellCut(parts', partSize))
  {
    parts', buf', ok := parts, buf + piece, true;
    PushKeepsBytes(parts, buf, piece, |parts| + 1);
    if |buf'| >= partSize || last {
      if !last && |buf'| < S3_MIN_PART { return false, parts', buf'; }
      var part := Part(|parts| + 1, buf');
      if partSize >= S3_MIN_PART {
        if last { PushLast(parts, part, partSize); } else { PushFull(parts, part, partSize); }
      }
      parts' := parts + [part];
      buf' := [];
    }
  }

  /** What one filled chunk buffer holds, and when it is the last. */
  lemma ChunkRead(data: seq<byte>, k: nat)
    requires k < ChunkCount(|data|)
    ensures var chunk := data[k * CHUNK..Min(k * CHUNK + CHUNK, |data|)];
            && chunk == PlainChunk(data, k)
            && (k * CHUNK + |chunk| >= |data| || |chunk| < CHUNK <==> IsLast(data, k))
            && (!IsLast(data, k) ==> |chunk| == CHUNK)
  {
  }

  /** Fill a chunk buffer and process it: the stored form of chunk k, and whether it was the last. */
  method NextPiece(enc: Encryptor?, ghost vault: Option<Vault>, data: seq<byte>, readTotal: nat, ghost k: nat)
    returns (r: Result<seq<byte>, CryptoError>, last: bool, readTotal': nat)
    requires k < ChunkCount(|data|) && readTotal == k * CHUNK
    requires AtChunk(enc, vault, k) && (vault.Some? ==> TagLengths(vault.value.aead))
    modifies enc
    ensures last == IsLast(data, k) && (!last ==> readTotal' == (k + 1) * CHUNK)
    ensures r.Err? <==> enc != null && k == TWO32 - 1
    ensures r.Ok? ==> WireUpTo(vault, data, k + 1) == WireUpTo(vault, data, k) + r.value
    ensures r.Ok? ==> |r.value| <= CIPHER_CHUNK && AtChunk(enc, vault, k + 1)
  {
    ChunkRead(data, k);
    var chunk := ReadChunk(data, readTotal);
    readTotal' := readTotal + |chunk|;
    last := readTotal' >= |data| || |chunk| < CHUNK;
    r := StoreChunk(enc, vault, data, k, chunk, last);
  }

  /** A session with a vault starts with the header in the buffer. */
  method Begin(vault: Option<Vault>, ghost data: seq<byte>) returns (enc: Encryptor?, buf: seq<byte>)
    requires vault.Some? ==> |vault.value.prefix| == PREFIX_LEN
    ensures AtChunk(enc, vault, 0) && (enc != null ==> fresh(enc))
    ensures Concat([]) + buf == WireUpTo(vault, data, 0) && |buf| <= HEADER_LEN
  {
    enc, buf := null, [];
    if vault.Some? {
      enc := new Encryptor(vault.value.aead, vault.value.prefix);
      buf := Header(vault.value.prefix);
    }
  }

  /** One round of the loop: chunk k joins the buffer, and a part goes out when it is full or the file ended. */
  method Round(enc: Encryptor?, ghost vault: Option<Vault>, data: seq<byte>, readTotal: nat, ghost k: nat,
               parts: seq<Part>, buf: seq<byte>, partSize: nat)
    returns (err: Option<UploadError>, last: bool, readTotal': nat, parts': seq<Part>, buf': seq<byte>)
    requires k < ChunkCount(|data|) && readTotal == k * CHUNK
    requires AtChunk(enc, vault, k) && (vault.Some? ==> TagLengths(vault.value.aead))
    requires Concat(parts) + buf == WireUpTo(vault, data, k) && Pending(parts, buf, partSize)
    modifies enc
    ensures last == IsLast(data, k)
    ensures err == Some(BelowMinimum) ==> partSize < S3_MIN_PART
    ensures err != Some(Cancelled)
    ensures err.Some? && err.value.Seal? ==> vault.Some? && k == TWO32 - 1
    ensures err.None? ==> AtChunk(enc, vault, k + 1) && Concat(parts') + buf' == WireUpTo(vault, data, k + 1)
    ensures err.None? && !last ==> readTotal' == (k + 1) * CHUNK && Pending(parts', buf', partSize)
    ensures err.None? && last ==> buf' == [] && (partSize >= S3_MIN_PART ==> WellCut(parts', partSize))
  {
    err, parts', buf' := None, parts, buf;
    var s, ok;
    s, last, readTotal' := NextPiece(enc, vault, data, readTotal, k);
    if s.Err? { err := Some(Seal(s.error)); return; }
    ok, parts', buf' := AppendPiece(parts, buf, s.value, last, partSize);
    if !ok { err := Some(BelowMinimum); }
  }

  lemma AllSent(vault: Option<Vault>, data: seq<byte>, parts: seq<Part>, k: nat)
    requires k < ChunkCount(|data|) && IsLast(data, k) && Concat(parts) + [] == WireUpTo(vault, data, k + 1)
    ensures Concat(parts) == Wire(vault, data)
  {
  }

  /** The read, seal and send loop, for any part size. */
  method UploadParts(vault: Option<Vault>, data: seq<byte>, partSize: nat, cancelled: nat -> bool)
    returns (r: Result<seq<Part>, UploadError>)
    requires vault.Some? ==> |vault.value.prefix| == PREFIX_LEN && TagLengths(vault.value.aead)
    ensures r.Ok? ==> Concat(r.value) == Wire(vault, data)
    ensures r.Ok? && partSize >= S3_MIN_PART ==> WellCut(r.value, partSize)
    ensures r == Err(BelowMinimum) ==> partSize < S3_MIN_PART
    ensures r.Err? && r.error.Seal? ==> vault.Some? && ChunkCount(|data|) >= TWO32
    ensures r == Err(Cancelled) ==> exists k: nat :: k < ChunkCount(|data|) && cancelled(k)
    ensures r.Ok? ==> forall k | 0 <= k < ChunkCount(|data|) :: !cancelled(k)
  {
    var enc, buf := Begin(vault, data);
    var parts: seq<Part> := [];
    var readTotal, k := 0, 0;
    while true
      invariant k < ChunkCount(|data|) && readTotal == k * CHUNK
      invariant AtChunk(enc, vault, k) && (enc != null ==> fresh(enc))
      invariant Concat(parts) + buf == WireUpTo(vault, data, k)
      invariant Pending(parts, buf, partSize) && forall j | 0 <= j < k :: !cancelled(j)
      decreases ChunkCount(|data|) - k
    {
      if cancelled(k) { return Err(Cancelled); }
      var err, last;
      err, last, readTotal, parts, buf := Round(enc, vault, data, readTotal, k, parts, buf, partSize);
      if err.Some? { return Err(err.value); }
      if last {
        AllSent(vault, data, parts, k);
        return Ok(parts);
      }
      k := k + 1;
    }
    assert false;
  }

  /**
   * The upload. What is stored is exactly what one-shot processing would store, cut into
   * numbered parts of at least the part size (the last excepted) and below part size plus one chunk.
   * The "below the minimum" error needs a wrapped part size; a seal error needs 2^32 chunks.
   */
  method UploadMultipart(vault: Option<Vault>, data: seq<byte>, partSizeMib: nat, cancelled: nat -> bool)
    returns (r: Result<seq<Part>, UploadError>)
    requires vault.Some? ==> |vault.value.prefix| == PREFIX_LEN && TagLengths(vault.value.aead)
    ensures r.Ok? ==> Concat(r.value) == Wire(vault, data)
    ensures r.Ok? && PartSize(partSizeMib) >= S3_MIN_PART ==> WellCut(r.value, PartSize(partSizeMib))
    ensures r == Err(BelowMinimum) ==> PartSize(partSizeMib) < S3_MIN_PART
    ensures r.Err? && r.error.Seal? ==> vault.Some? && ChunkCount(|data|) >= TWO32
    ensures r == Err(Cancelled) ==> exists k: nat :: k < ChunkCount(|data|) && cancelled(k)
    ensures r.Ok? ==> forall k | 0 <= k < ChunkCount(|data|) :: !cancelled(k)
  {
    r := UploadParts(vault, data, PartSize(partSizeMib), cancelled);
  }

  lemma {:induction false} PartCount(parts: seq<Part>, partSize: nat)
    requires FullParts(parts, partSize) && partSize >= S3_MIN_PART
    ensures |Concat(parts)| >= |parts| * S3_MIN_PART
  {
    if |parts| > 0 { PartCount(parts[..|parts| - 1], partSize); }
  }

  lemma WellCutCount(parts: seq<Part>, partSize: nat)
    requires WellCut(parts, partSize) && partSize >= S3_MIN_PART
    ensures |Concat(parts)| >= (|parts| - 1) * S3_MIN_PART
  {
    PartCount(parts[..|parts| - 1], partSize);
  }

  lemma CipherLenBound(plain: nat)
    requires ChunkCount(plain) < TWO32
    ensures CipherLen(plain) < (TWO31 - 1) * S3_MIN_PART
  {
  }

  lemma WireLength(v: Vault, data: seq<byte>)
    requires |v.prefix| == PREFIX_LEN && TagLengths(v.aead)
    ensures |Wire(Some(v), data)| == CipherLen(|data|)
  {
    BlobLength(v.aead, v.prefix, data);
  }

  /** The 32-bit signed part number of an encrypted upload cannot overflow. */
  lemma PartNumbersFit(plain: nat, parts: seq<Part>, partSize: nat)
    requires ChunkCount(plain) < TWO32 && |Concat(parts)| == CipherLen(plain)
    requires partSize >= S3_MIN_PART && WellCut(parts, partSize)
    ensures |parts| < TWO31
  {
    CipherLenBound(plain);
    WellCutCount(parts, partSize);
  }
}
