/**
 * Size arithmetic of the chunked file format: a 24-byte header, then 1 MiB plaintext chunks, each
 * followed by a 16-byte tag. The functions named after the source's functions compute on 64-bit
 * words and wrap where an operation can overflow; `CipherLen` is the unbounded reference.
 */
module Layout {
  import opened Prelude

  const HEADER_LEN: nat := 24
  const PREFIX_LEN: nat := 20
  const TAG: nat := 16
  const CHUNK: nat := 0x10_0000
  const CIPHER_CHUNK: nat := 0x10_0010

  datatype LayoutError = TooShort | BadFraming

  function DivCeil(a: nat, b: nat): (q: nat)
    requires b > 0
  {
    if a % b == 0 then a / b else a / b + 1
  }

  /** The number of sealed chunks as the source computes it; an empty file still has one (empty) chunk. */
  function ChunksByDivision(plain: nat): (n: nat)
    ensures IsChunkCount(plain, n)
  {
    if plain == 0 then 1 else DivCeil(plain, CHUNK)
  }

  /** n chunks hold the plaintext, and only a first chunk may be empty. */
  predicate IsChunkCount(plain: nat, n: nat)
  {
    n >= 1 && (n - 1) * CHUNK <= plain <= n * CHUNK && (n >= 2 ==> (n - 1) * CHUNK < plain)
  }

  lemma ChunkCountUnique(plain: nat, n: nat, k: nat)
    requires IsChunkCount(plain, n) && IsChunkCount(plain, k)
    ensures n == k
  {
  }

  /** Reference: the one number of chunks that fits. */
  ghost function ChunkCount(plain: nat): (n: nat)
    ensures IsChunkCount(plain, n)
  {
    assert IsChunkCount(plain, ChunksByDivision(plain));
    var n: nat :| IsChunkCount(plain, n);
    n
  }

  lemma ChunksAgree(plain: nat)
    ensures ChunksByDivision(plain) == ChunkCount(plain)
  {
  }

  /** Reference: the exact number of bytes the format needs, with no machine word in sight. */
  ghost function CipherLen(plain: nat): (n: nat)
  {
    HEADER_LEN + plain + ChunkCount(plain) * TAG
  }

  function Wrap(x: nat): (r: nat) { x % TWO64 }

  function EncryptedSize(plain: nat): (n: nat)
    requires plain < TWO64
  {
    Wrap(Wrap(HEADER_LEN + plain) + Wrap(ChunksByDivision(plain) * TAG))
  }

  function WireLen(plain: nat): (n: nat)
    requires plain < TWO64
  {
    var chunks := Max(Wrap(plain + CHUNK - 1) / CHUNK, 1);
    Wrap(Wrap(HEADER_LEN + plain) + Wrap(chunks * TAG))
  }

  function PlaintextOfCiphertext(cipherLen: nat): (n: nat)
  {
    if cipherLen < HEADER_LEN then 0
    else
      var body := cipherLen - HEADER_LEN;
      if body < TAG then 0
      else
        var chunks := body / CIPHER_CHUNK + (if body % CIPHER_CHUNK > 0 then 1 else 0);
        Max(body - Max(chunks, 1) * TAG, 0)
  }

  /** Number of chunks and length of the last one, from the total ciphertext length. */
  function ChunkLayout(cipherLen: nat): (r: Result<(nat, nat), LayoutError>)
  {
    if cipherLen < HEADER_LEN then Err(TooShort)
    else
      var body := cipherLen - HEADER_LEN;
      if body < TAG then Err(TooShort)
      else
        var n := Max(DivCeil(body, CIPHER_CHUNK), 1);
        var last := body - (n - 1) * CIPHER_CHUNK;
        if last < TAG then Err(BadFraming) else Ok((n, last))
  }

  /** The 64-bit size is the true size exactly when the true size fits in 64 bits. */
  lemma EncryptedSizeExact(plain: nat)
    requires plain < TWO64
    ensures EncryptedSize(plain) == CipherLen(plain) <==> CipherLen(plain) < TWO64
  {
    ChunksAgree(plain);
    assert ChunkCount(plain) * TAG < TWO64;
    if CipherLen(plain) < TWO64 {
      assert Wrap(HEADER_LEN + plain) == HEADER_LEN + plain;
    }
  }

  /** The two size computations of the source agree exactly when the rounding add does not overflow. */
  lemma WireLenAgrees(plain: nat)
    requires plain < TWO64
    ensures WireLen(plain) == EncryptedSize(plain) <==> plain + CHUNK - 1 < TWO64
  {
    ChunksAgree(plain);
    if plain + CHUNK - 1 < TWO64 {
      CeilByShift(plain);
    } else {
      assert Wrap(plain + CHUNK - 1) == plain + CHUNK - 1 - TWO64;
      assert Wrap(plain + CHUNK - 1) / CHUNK == 0;
      var n := ChunkCount(plain);
      assert n == TWO64 / CHUNK;
      assert n * TAG < TWO64;
    }
  }

  lemma CeilByShift(plain: nat)
    ensures Max((plain + CHUNK - 1) / CHUNK, 1) == ChunkCount(plain)
  {
  }

  /** A size that fits never trips the rounding add, so both computations give the true size. */
  lemma SizesAgree(plain: nat)
    requires CipherLen(plain) < TWO64
    ensures EncryptedSize(plain) == WireLen(plain) == CipherLen(plain)
  {
    EncryptedSizeExact(plain);
    WireLenAgrees(plain);
  }

  /** Reading a layout off a ciphertext length gives the true chunk count and last length. */
  lemma LayoutOfCipherLen(plain: nat)
    ensures var n := ChunkCount(plain);
            ChunkLayout(CipherLen(plain)) == Ok((n, plain - (n - 1) * CHUNK + TAG))
  {
  }

  lemma LayoutUnique(n: nat, last: nat)
    requires n >= 1 && TAG <= last <= CIPHER_CHUNK
    ensures ChunkLayout(HEADER_LEN + (n - 1) * CIPHER_CHUNK + last) == Ok((n, last))
  {
  }

  /** An accepted layout accounts for every byte of the blob. */
  lemma LayoutCovers(cipherLen: nat)
    requires ChunkLayout(cipherLen).Ok?
    ensures var (n, last) := ChunkLayout(cipherLen).value;
            n >= 1 && TAG <= last <= CIPHER_CHUNK && cipherLen == HEADER_LEN + (n - 1) * CIPHER_CHUNK + last
  {
  }

  lemma PlaintextInvertsCipherLen(plain: nat)
    ensures PlaintextOfCiphertext(CipherLen(plain)) == plain
  {
  }

  /** For every accepted length the plaintext size and the layout agree; what is too small holds nothing. */
  lemma PlaintextAgreesWithLayout(cipherLen: nat)
    ensures ChunkLayout(cipherLen).Ok? ==>
              var (n, last) := ChunkLayout(cipherLen).value;
              PlaintextOfCiphertext(cipherLen) == (n - 1) * CHUNK + last - TAG
    ensures cipherLen < HEADER_LEN + TAG ==> PlaintextOfCiphertext(cipherLen) == 0
  {
  }

  /** A length with whole chunks followed by one empty chunk: framed correctly, produced by no plaintext. */
  ghost predicate FullThenEmpty(cipherLen: nat)
  {
    exists k: nat :: k >= 1 && cipherLen == HEADER_LEN + k * CIPHER_CHUNK + TAG
  }

  ghost predicate IsCipherLen(cipherLen: nat)
  {
    exists plain: nat :: CipherLen(plain) == cipherLen
  }

  /**
   * The accepted lengths are exactly the real ciphertext lengths plus the full-then-empty ones, and the two are
   * disjoint.
   */
  lemma AcceptedLengths(cipherLen: nat)
    ensures ChunkLayout(cipherLen).Ok? <==> IsCipherLen(cipherLen) || FullThenEmpty(cipherLen)
    ensures !(IsCipherLen(cipherLen) && FullThenEmpty(cipherLen))
  {
    if ChunkLayout(cipherLen).Ok? {
      LayoutCovers(cipherLen);
      var (n, last) := ChunkLayout(cipherLen).value;
      if n >= 2 && last == TAG {
        assert cipherLen == HEADER_LEN + (n - 1) * CIPHER_CHUNK + TAG;
      } else {
        var plain := (n - 1) * CHUNK + last - TAG;
        ChunkCountUnique(plain, n, ChunkCount(plain));
        assert CipherLen(plain) == cipherLen;
      }
    }
    forall plain: nat | CipherLen(plain) == cipherLen
      ensures ChunkLayout(cipherLen).Ok? && !FullThenEmpty(cipherLen)
    {
      LayoutOfCipherLen(plain);
      forall k: nat | k >= 1
        ensures cipherLen != HEADER_LEN + k * CIPHER_CHUNK + TAG
      {
        LayoutUnique(k + 1, TAG);
      }
    }
    if FullThenEmpty(cipherLen) {
      var k: nat :| k >= 1 && cipherLen == HEADER_LEN + k * CIPHER_CHUNK + TAG;
      LayoutUnique(k + 1, TAG);
    }
  }
}
