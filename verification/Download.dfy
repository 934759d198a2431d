/**
 * Resumable download of an encrypted object across interrupted attempts. Each attempt may be served
 * different bytes, may lose the connection at any byte, may die inside a disk write, and may fail to
 * rename; the part file is what survives.
 */
module Download {
  import opened Prelude
  import opened Layout
  import opened Crypto
  import opened Authenticity

  /** What is on the local disk: the `.rse-part` file (absent reads as empty) and the finished file. */
  datatype Disk = Disk(part: seq<byte>, out: Option<seq<byte>>)

  /** Writing the plaintext of chunk `chunk` dies after `written` bytes. */
  datatype Crash = Crash(chunk: nat, written: nat)

  /** The environment of one attempt: the bytes the backend serves, how many of them arrive, and what else fails. */
  datatype Attempt = Attempt(served: seq<byte>, delivered: nat, crash: Option<Crash>, renameWorks: bool)

  function WholeChunks(len: nat): (w: nat) { len - len % CHUNK }

  function ResumeOffset(done: nat): (off: nat) { HEADER_LEN + done / CHUNK * CIPHER_CHUNK }

  function Take(s: seq<byte>, n: nat): (t: seq<byte>) { if n <= |s| then s[..n] else s }

  function Drop(s: seq<byte>, n: nat): (t: seq<byte>) { if n <= |s| then s[n..] else [] }

  /** The bytes that arrive when reading from an offset. */
  function Stream(at: Attempt, offset: nat): (s: seq<byte>) { Take(Drop(at.served, offset), at.delivered) }

  /**
   * The chunk loop from chunk i on, with the decryptor at `counter`: the part file it leaves, and whether it got
   * through.
   */
  function FetchFrom(a: Aead, prefix: seq<byte>, n: nat, last: nat, crash: Option<Crash>, body: seq<byte>, counter: nat,
                     i: nat, part: seq<byte>)
    : (r: (seq<byte>, bool))
    decreases n - i
  {
    var len := CipherChunkLen(n, last, i);
    if i >= n then (part, true)
    else if |body| < len then (part, false)
    else
      match OpenAt(a, prefix, counter, body[..len], i + 1 == n)
      case Err(_) => (part, false)
      case Ok(plain) =>
        if crash.Some? && crash.value.chunk == i then (part + Take(plain, crash.value.written), false)
        else FetchFrom(a, prefix, n, last, crash, body[len..], counter + 1, i + 1, part + plain)
  }

  /** The header an attempt works with, and the bytes that follow: a fresh read takes both from one stream. */
  function HeaderAndBody(at: Attempt, done: nat): (r: Option<(seq<byte>, seq<byte>)>)
    ensures r.Some? ==> |r.value.0| == HEADER_LEN
  {
    if done / CHUNK == 0 then
      var s := Stream(at, 0);
      if |s| < HEADER_LEN then None else Some((s[..HEADER_LEN], s[HEADER_LEN..]))
    else if |at.served| < HEADER_LEN then None
    else Some((at.served[..HEADER_LEN], Stream(at, ResumeOffset(done))))
  }

  /** A part file that already covers the file is cut to length and renamed. */
  function Finalize(expected: nat, at: Attempt, part: seq<byte>, out: Option<seq<byte>>): (d: Disk)
  {
    var whole := Take(part, expected);
    if at.renameWorks then Disk([], Some(whole)) else Disk(whole, out)
  }

  /** The missing chunks are fetched onto a chunk-aligned part file: what it then is, and whether all arrived. */
  function Fetched(a: Aead, cipherLen: nat, at: Attempt, part: seq<byte>): (r: (seq<byte>, bool))
  {
    var layout, reader, i := ChunkLayout(cipherLen), HeaderAndBody(at, |part|), |part| / CHUNK;
    if layout.Err? || reader.None? || !GoodHeader(reader.value.0) then (part, false)
    else
      FetchFrom(a, reader.value.0[4..], layout.value.0, layout.value.1, at.crash, reader.value.1, i % TWO32, i, part)
  }

  function Resume(a: Aead, cipherLen: nat, at: Attempt, part: seq<byte>, out: Option<seq<byte>>): (d: Disk)
  {
    var (part', all) := Fetched(a, cipherLen, at, part);
    if all && at.renameWorks then Disk([], Some(part')) else Disk(part', out)
  }

  /** The whole chunks of the part file already cover the file. */
  predicate Covers(d: Disk, expected: nat)
  {
    WholeChunks(|d.part|) > 0 && WholeChunks(|d.part|) >= expected
  }

  /** One attempt on an encrypted object of expected plaintext length `expected`. */
  function RunAttempt(a: Aead, expected: nat, at: Attempt, d: Disk): (d': Disk)
    requires expected < TWO64
  {
    var part := d.part[..WholeChunks(|d.part|)];
    if Covers(d, expected) then Finalize(expected, at, part, d.out)
    else Resume(a, EncryptedSize(expected), at, part, d.out)
  }

  /** The attempt reports success. */
  predicate Completes(a: Aead, expected: nat, at: Attempt, d: Disk)
    requires expected < TWO64
  {
    at.renameWorks
      && (Covers(d, expected) || Fetched(a, EncryptedSize(expected), at, d.part[..WholeChunks(|d.part|)]).1)
  }

  /** The worker's loop from attempt k on: retry until one succeeds; giving up removes the part file. */
  function RetryFrom(a: Aead, expected: nat, retries: nat, at: nat -> Attempt, cancelled: nat -> bool, d: Disk, k: nat)
    : (r: (Disk, bool))
    requires expected < TWO64
    decreases retries - k
  {
    var d' := RunAttempt(a, expected, at(k), d);
    if Completes(a, expected, at(k), d) then (d', true)
    else if k < retries && !cancelled(k) then RetryFrom(a, expected, retries, at, cancelled, d', k + 1)
    else (Disk([], d'.out), false)
  }

  function Run(a: Aead, expected: nat, attempts: seq<Attempt>, d: Disk): (d': Disk)
    requires expected < TWO64
  {
    if attempts == [] then d
    else RunAttempt(a, expected, attempts[|attempts| - 1], Run(a, expected, attempts[..|attempts| - 1], d))
  }

  /** The download task: its fields are the two files it touches. */
  class DownloadTask {
    var part: seq<byte>
    var out: Option<seq<byte>>

    method DownloadOne(a: Aead, expected: nat, at: Attempt) returns (ok: bool)
      requires expected < TWO64
      modifies this
      ensures Disk(part, out) == RunAttempt(a, expected, at, old(Disk(part, out)))
      ensures ok <==> Completes(a, expected, at, old(Disk(part, out)))
    {
      var done := |part|;
      if done > 0 {
        var whole := done - done % CHUNK;
        if whole != done { part := part[..whole]; done := whole; }
      }
      assert part == old(part)[..WholeChunks(|old(part)|)];
      var cipherLen := EncryptedSize(expected);
      if done > 0 && done >= expected {
        if |part| > expected { part := part[..expected]; }
        assert part == Take(old(part)[..WholeChunks(|old(part)|)], expected);
        if !at.renameWorks { return false; }
        out, part := Some(part), [];
        return true;
      }
      ok := FetchRest(a, cipherLen, at);
    }

    /** A file task's download: further attempts while there are retries left and nobody cancelled. */
    method DownloadWithRetries(a: Aead, expected: nat, retries: nat, at: nat -> Attempt, cancelled: nat -> bool)
      returns (ok: bool)
      requires expected < TWO64
      modifies this
      ensures (Disk(part, out), ok) == RetryFrom(a, expected, retries, at, cancelled, old(Disk(part, out)), 0)
    {
      var k := 0;
      while true
        invariant k <= retries
        invariant RetryFrom(a, expected, retries, at, cancelled, Disk(part, out), k)
               == RetryFrom(a, expected, retries, at, cancelled, old(Disk(part, out)), 0)
        decreases retries - k
      {
        ok := DownloadOne(a, expected, at(k));
        if ok { return; }
        if k == retries || cancelled(k) {
          part := [];
          return;
        }
        k := k + 1;
      }
    }

    method FetchRest(a: Aead, cipherLen: nat, at: Attempt) returns (ok: bool)
      modifies this
      ensures Disk(part, out) == Resume(a, cipherLen, at, old(part), old(out))
      ensures ok <==> at.renameWorks && Fetched(a, cipherLen, at, old(part)).1
    {
      var layout := ChunkLayout(cipherLen);
      if layout.Err? { return false; }
      var (n, last) := layout.value;
      var completed := |part| / CHUNK;
      var reader := HeaderAndBody(at, |part|);
      if reader.None? { return false; }
      var (header, body) := reader.value;
      if !GoodHeader(header) { return false; }
      ok := FetchChunks(a, header[4..], n, last, at.crash, body, completed);
      if ok {
        if !at.renameWorks { return false; }
        out, part := Some(part), [];
      }
    }

    method FetchChunks(a: Aead, prefix: seq<byte>, n: nat, last: nat, crash: Option<Crash>, body: seq<byte>,
                       completed: nat)
      returns (ok: bool)
      modifies this`part
      ensures (part, ok) == FetchFrom(a, prefix, n, last, crash, body, completed % TWO32, completed, old(part))
    {
      var dec := new Decryptor(a, prefix);
      dec.SeekTo(completed % TWO32);
      var i, rest := completed, body;
      while i < n
        invariant dec.counter < TWO32
        invariant FetchFrom(a, prefix, n, last, crash, rest, dec.counter, i, part)
               == FetchFrom(a, prefix, n, last, crash, body, completed % TWO32, completed, old(part))
        decreases n - i
      {
        var len := if i + 1 == n then last else CIPHER_CHUNK;
        if |rest| < len { return false; }
        var plain := dec.OpenChunk(rest[..len], i + 1 == n);
        if plain.Err? { return false; }
        if crash.Some? && crash.value.chunk == i {
          part := part + Take(plain.value, crash.value.written);
          return false;
        }
        part := part + plain.value;
        rest := rest[len..];
        i := i + 1;
      }
      ok := true;
    }
  }

  // ---------------------------------------------------------------- what survives interruption

  ghost predicate IsPrefix(p: seq<byte>, s: seq<byte>) { |p| <= |s| && p == s[..|p|] }

  /** The part file is a prefix of the plaintext, and a finished file is the plaintext. */
  ghost predicate Sound(d: Disk, data: seq<byte>)
  {
    IsPrefix(d.part, data) && (d.out.Some? ==> d.out.value == data)
  }

  /** Whatever else is served, the header is the file's. */
  predicate ServesHeader(at: Attempt, prefix: seq<byte>)
  {
    |at.served| >= HEADER_LEN ==> at.served[..HEADER_LEN] == Header(prefix)
  }

  /** A chunk accepted at its own index is that chunk's plaintext. */
  lemma OpenedChunk(a: Aead, log: Log, prefix: seq<byte>, data: seq<byte>, i: nat, x: seq<byte>)
    requires Setting(a, log, prefix, data) && i < ChunkCount(|data|)
    requires OpenAt(a, prefix, i, x, i + 1 == ChunkCount(|data|)).Ok?
    ensures OpenAt(a, prefix, i, x, i + 1 == ChunkCount(|data|)) == Ok(PlainChunk(data, i))
  {
    var j := AcceptedChunk(a, log, prefix, data, i, x, i + 1 == ChunkCount(|data|));
    assert j == i;
  }

  /** The plaintext of the first i chunks. */
  ghost function Front(data: seq<byte>, i: nat): (p: seq<byte>) { data[..Min(i * CHUNK, |data|)] }

  /** The next chunk joins the part file. */
  lemma FrontGrows(data: seq<byte>, i: nat)
    requires i < ChunkCount(|data|)
    ensures Front(data, i) == data[..i * CHUNK] && Front(data, i) + PlainChunk(data, i) == Front(data, i + 1)
    ensures i + 1 == ChunkCount(|data|) ==> Front(data, i + 1) == data
  {
    ChunkEnds(|data|, i);
    PlainSplit(data, i);
    assert data[..|data|] == data;
  }

  /** The chunk loop stops: it is through, or the next chunk is not complete. */
  lemma FetchStops(a: Aead, prefix: seq<byte>, n: nat, last: nat, crash: Option<Crash>, body: seq<byte>, i: nat,
                   part: seq<byte>)
    requires i >= n || |body| < CipherChunkLen(n, last, i)
    ensures FetchFrom(a, prefix, n, last, crash, body, i, i, part) == (part, i >= n)
  {
  }

  /** Or it takes the next chunk. */
  lemma FetchTakes(a: Aead, prefix: seq<byte>, n: nat, last: nat, crash: Option<Crash>, body: seq<byte>, i: nat,
                   part: seq<byte>, plain: seq<byte>)
    requires i < n && |body| >= CipherChunkLen(n, last, i)
    requires OpenAt(a, prefix, i, body[..CipherChunkLen(n, last, i)], i + 1 == n) == Ok(plain)
    ensures FetchFrom(a, prefix, n, last, crash, body, i, i, part) ==
            if crash.Some? && crash.value.chunk == i then (part + Take(plain, crash.value.written), false)
            else FetchFrom(a, prefix, n, last, crash, body[CipherChunkLen(n, last, i)..], i + 1, i + 1, part + plain)
  {
  }

  lemma {:induction false} FetchSound(a: Aead, log: Log, prefix: seq<byte>, data: seq<byte>, last: nat,
                                      crash: Option<Crash>, body: seq<byte>, i: nat, part: seq<byte>)
    requires Setting(a, log, prefix, data) && i <= ChunkCount(|data|) && part == Front(data, i)
    ensures var (part', ok) := FetchFrom(a, prefix, ChunkCount(|data|), last, crash, body, i, i, part);
            IsPrefix(part', data) && (ok ==> part' == data)
    decreases ChunkCount(|data|) - i
  {
    var n := ChunkCount(|data|);
    var len := CipherChunkLen(n, last, i);
    if i == n {
      FrontGrows(data, n - 1);
    } else if |body| >= len && OpenAt(a, prefix, i, body[..len], i + 1 == n).Ok? {
      OpenedChunk(a, log, prefix, data, i, body[..len]);
      FrontGrows(data, i);
      FetchTakes(a, prefix, n, last, crash, body, i, part, PlainChunk(data, i));
      FetchSound(a, log, prefix, data, last, crash, body[len..], i + 1, part + PlainChunk(data, i));
      if crash.Some? { PrefixGrows(data, part, PlainChunk(data, i), crash.value.written); }
    }
  }

  lemma PrefixGrows(data: seq<byte>, part: seq<byte>, plain: seq<byte>, k: nat)
    requires IsPrefix(part + plain, data)
    ensures IsPrefix(part + Take(plain, k), data)
  {
  }

  /** A chunk-aligned length below the file's length names a chunk of the file. */
  lemma ChunkIndex(done: nat, plain: nat)
    requires done % CHUNK == 0 && (done < plain || done == 0) && ChunkCount(plain) < TWO32
    ensures var i := done / CHUNK; i * CHUNK == done && i < ChunkCount(plain) && i % TWO32 == i
  {
  }

  /**
   * Resuming lines up: the truncated part file, the network offset and the decryptor counter all name the same chunk.
   */
  lemma ResumeNamesOneChunk(a: Aead, prefix: seq<byte>, data: seq<byte>, part: seq<byte>)
    requires |prefix| == PREFIX_LEN && TagLengths(a) && ChunkCount(|data|) < TWO32
    requires IsPrefix(part, data) && WholeChunks(|part|) < |data|
    ensures var done := WholeChunks(|part|);
            var i := done / CHUNK;
            && i * CHUNK == done && i < ChunkCount(|data|) && i % TWO32 == i
            && var off, c := ResumeOffset(done), SealedChunk(a, prefix, data, i);
               off + |c| <= |Blob(a, prefix, data)| && Blob(a, prefix, data)[off..off + |c|] == c
  {
    ChunkIndex(WholeChunks(|part|), |data|);
    BlobSlice(a, prefix, data, WholeChunks(|part|) / CHUNK);
  }

  lemma EncryptedSizeOf(plain: nat)
    requires ChunkCount(plain) < TWO32
    ensures plain < TWO64 && EncryptedSize(plain) == CipherLen(plain)
  {
    EncryptedSizeExact(plain);
  }

  lemma HeaderOfAttempt(at: Attempt, prefix: seq<byte>, done: nat)
    requires |prefix| == PREFIX_LEN && ServesHeader(at, prefix)
    ensures HeaderAndBody(at, done).Some? ==> HeaderAndBody(at, done).value.0 == Header(prefix)
    ensures Header(prefix)[4..] == prefix && GoodHeader(Header(prefix))
  {
  }

  lemma ResumeSound(a: Aead, log: Log, prefix: seq<byte>, data: seq<byte>, at: Attempt, part: seq<byte>,
                    out: Option<seq<byte>>)
    requires Setting(a, log, prefix, data) && ServesHeader(at, prefix) && Sound(Disk(part, out), data)
    requires |part| % CHUNK == 0 && (|part| < |data| || |part| == 0)
    ensures Sound(Resume(a, CipherLen(|data|), at, part, out), data)
  {
    var n := ChunkCount(|data|);
    LayoutOfCipherLen(|data|);
    HeaderOfAttempt(at, prefix, |part|);
    var i, last := |part| / CHUNK, |data| - (n - 1) * CHUNK + TAG;
    var reader := HeaderAndBody(at, |part|);
    ChunkIndex(|part|, |data|);
    if reader.Some? {
      FetchSound(a, log, prefix, data, last, at.crash, reader.value.1, i, part);
    }
  }

  /**
   * No attempt, however interrupted and whatever body it is served, spoils the part file or finishes with other
   * bytes.
   */
  lemma AttemptSound(a: Aead, log: Log, prefix: seq<byte>, data: seq<byte>, at: Attempt, d: Disk)
    requires Setting(a, log, prefix, data) && ServesHeader(at, prefix) && Sound(d, data)
    ensures |data| < TWO64 && Sound(RunAttempt(a, |data|, at, d), data)
  {
    var part := d.part[..WholeChunks(|d.part|)];
    EncryptedSizeOf(|data|);
    if Covers(d, |data|) {
      assert Take(part, |data|) == data;
    } else {
      ResumeSound(a, log, prefix, data, at, part, d.out);
    }
  }

  /** The same over any number of attempts. */
  lemma {:induction false} RunSound(a: Aead, log: Log, prefix: seq<byte>, data: seq<byte>, attempts: seq<Attempt>,
                                    d: Disk)
    requires Setting(a, log, prefix, data) && Sound(d, data)
    requires forall at | at in attempts :: ServesHeader(at, prefix)
    ensures |data| < TWO64 && Sound(Run(a, |data|, attempts, d), data)
  {
    EncryptedSizeOf(|data|);
    if attempts != [] {
      RunSound(a, log, prefix, data, attempts[..|attempts| - 1], d);
      AttemptSound(a, log, prefix, data, attempts[|attempts| - 1], Run(a, |data|, attempts[..|attempts| - 1], d));
    }
  }

  /** Fetching only ever appends. */
  lemma {:induction false} FetchKeeps(a: Aead, prefix: seq<byte>, n: nat, last: nat, crash: Option<Crash>,
                                      body: seq<byte>, counter: nat, i: nat, part: seq<byte>)
    ensures IsPrefix(part, FetchFrom(a, prefix, n, last, crash, body, counter, i, part).0)
    decreases n - i
  {
    var len := CipherChunkLen(n, last, i);
    if i < n && |body| >= len && OpenAt(a, prefix, counter, body[..len], i + 1 == n).Ok? {
      var plain := OpenAt(a, prefix, counter, body[..len], i + 1 == n).value;
      var rest := FetchFrom(a, prefix, n, last, crash, body[len..], counter + 1, i + 1, part + plain);
      FetchKeeps(a, prefix, n, last, crash, body[len..], counter + 1, i + 1, part + plain);
      PrefixTrans(part, part + plain, rest.0);
    }
  }

  lemma PrefixTrans(p: seq<byte>, q: seq<byte>, r: seq<byte>)
    requires IsPrefix(p, q) && IsPrefix(q, r)
    ensures IsPrefix(p, r)
  {
  }

  /**
   * An attempt that succeeds leaves exactly the file; one that fails, whatever it was served, leaves at least the
   * whole chunks that were there, for the next attempt to resume from, and the finished file as it was.
   */
  lemma AttemptKeeps(a: Aead, log: Log, prefix: seq<byte>, data: seq<byte>, at: Attempt, d: Disk)
    requires Setting(a, log, prefix, data) && ServesHeader(at, prefix) && Sound(d, data)
    ensures |data| < TWO64
    ensures var d' := RunAttempt(a, |data|, at, d);
            if Completes(a, |data|, at, d) then d' == Disk([], Some(data))
            else d'.out == d.out && IsPrefix(d.part[..WholeChunks(|d.part|)], d'.part)
  {
    AttemptSound(a, log, prefix, data, at, d);
    var part, reader := d.part[..WholeChunks(|d.part|)], HeaderAndBody(at, WholeChunks(|d.part|));
    if Covers(d, |data|) {
      assert Take(part, |data|) == data;
    } else if ChunkLayout(EncryptedSize(|data|)).Ok? && reader.Some? {
      var (n, last) := ChunkLayout(EncryptedSize(|data|)).value;
      var i := |part| / CHUNK;
      FetchKeeps(a, reader.value.0[4..], n, last, at.crash, reader.value.1, i % TWO32, i, part);
    }
  }

  // ---------------------------------------------------------------- what an attempt gets done

  /** How many chunks are complete after `m` body bytes have arrived from chunk i on. */
  function Reached(n: nat, last: nat, i: nat, m: nat): (k: nat)
    requires i <= n
  {
    if i == n || m >= (n - 1 - i) * CIPHER_CHUNK + last then n else i + m / CIPHER_CHUNK
  }

  lemma ReachedStep(n: nat, last: nat, i: nat, m: nat)
    requires i < n && TAG <= last <= CIPHER_CHUNK
    ensures var len := CipherChunkLen(n, last, i);
            && (m < len ==> Reached(n, last, i, m) == i)
            && (m >= len ==> i < Reached(n, last, i, m) == Reached(n, last, i + 1, m - len))
    ensures Reached(n, last, i, m) <= n
  {
    if i + 1 < n && m >= CIPHER_CHUNK {
      assert (n - 1 - i) * CIPHER_CHUNK == (n - 2 - i) * CIPHER_CHUNK + CIPHER_CHUNK;
      assert m / CIPHER_CHUNK == (m - CIPHER_CHUNK) / CIPHER_CHUNK + 1;
    }
    if m < (n - 1 - i) * CIPHER_CHUNK + last { QuotientBelow(m, n - i); }
  }

  lemma QuotientBelow(m: nat, k: nat)
    requires m < k * CIPHER_CHUNK
    ensures m / CIPHER_CHUNK < k
  {
  }

  /** The disk write dies in one of the chunks i..k. */
  predicate Hits(crash: Option<Crash>, i: nat, k: nat) { crash.Some? && i <= crash.value.chunk < k }

  /** Plaintext bytes on disk when the attempt ends: up to the crash, else the complete chunks. */
  function Held(len: nat, crash: Option<Crash>, i: nat, k: nat): (h: nat)
    ensures h <= len
  {
    if Hits(crash, i, k) then Min(crash.value.chunk * CHUNK + Min(crash.value.written, CHUNK), len)
    else Min(k * CHUNK, len)
  }

  lemma HeldStep(len: nat, crash: Option<Crash>, i: nat, k: nat)
    requires i < k
    ensures if crash.Some? && crash.value.chunk == i
            then Hits(crash, i, k) && Held(len, crash, i, k) == Min(i * CHUNK + Min(crash.value.written, CHUNK), len)
            else Held(len, crash, i, k) == Held(len, crash, i + 1, k) && (Hits(crash, i, k) <==> Hits(crash, i + 1, k))
  {
  }

  lemma DropFurther(body: seq<byte>, blob: seq<byte>, off: nat, len: nat)
    requires len <= |body| && off <= |blob| && IsPrefix(body, Drop(blob, off))
    ensures off + len <= |blob| && body[..len] == blob[off..off + len]
    ensures IsPrefix(body[len..], Drop(blob, off + len))
  {
  }

  /** A write that dies inside chunk i leaves the file up to that byte. */
  lemma CrashCut(data: seq<byte>, i: nat, written: nat)
    requires i < ChunkCount(|data|)
    ensures Front(data, i) + Take(PlainChunk(data, i), written) ==
            data[..Min(i * CHUNK + Min(written, CHUNK), |data|)]
  {
    ChunkEnds(|data|, i);
  }

  /** Bytes of the file's own stored form, from chunk i on. */
  ghost predicate OwnBody(a: Aead, prefix: seq<byte>, data: seq<byte>, body: seq<byte>, i: nat)
  {
    i == ChunkCount(|data|) || IsPrefix(body, Drop(Blob(a, prefix, data), HEADER_LEN + i * CIPHER_CHUNK))
  }

  /** The whole chunk at the front of them opens to the file's next chunk. */
  lemma OwnChunk(a: Aead, prefix: seq<byte>, data: seq<byte>, last: nat, body: seq<byte>, i: nat)
    requires TagLengths(a) && OpensFile(a, prefix, data) && |prefix| == PREFIX_LEN
    requires i < ChunkCount(|data|) < TWO32 && last == |data| - (ChunkCount(|data|) - 1) * CHUNK + TAG
    requires OwnBody(a, prefix, data, body, i) && |body| >= CipherChunkLen(ChunkCount(|data|), last, i)
    ensures var n, len := ChunkCount(|data|), CipherChunkLen(ChunkCount(|data|), last, i);
            && OpenAt(a, prefix, i, body[..len], i + 1 == n) == Ok(PlainChunk(data, i))
            && OwnBody(a, prefix, data, body[len..], i + 1)
  {
    var n, len := ChunkCount(|data|), CipherChunkLen(ChunkCount(|data|), last, i);
    BlobSlice(a, prefix, data, i);
    DropFurther(body, Blob(a, prefix, data), HEADER_LEN + i * CIPHER_CHUNK, len);
    OwnChunkOpens(a, prefix, data, i);
  }

  /** What the chunk loop leaves of k chunks that arrive completely. */
  ghost function Outcome(data: seq<byte>, crash: Option<Crash>, i: nat, k: nat): (r: (seq<byte>, bool))
  {
    (data[..Held(|data|, crash, i, k)], k == ChunkCount(|data|) && !Hits(crash, i, k))
  }

  lemma OutcomeStops(data: seq<byte>, crash: Option<Crash>, i: nat)
    ensures Outcome(data, crash, i, i) == (Front(data, i), i == ChunkCount(|data|))
  {
  }

  lemma OutcomeGoesOn(data: seq<byte>, crash: Option<Crash>, i: nat, k: nat)
    requires i < k && i < ChunkCount(|data|)
    ensures Outcome(data, crash, i, k) ==
            if crash.Some? && crash.value.chunk == i
            then (Front(data, i) + Take(PlainChunk(data, i), crash.value.written), false)
            else Outcome(data, crash, i + 1, k)
  {
    HeldStep(|data|, crash, i, k);
    if crash.Some? && crash.value.chunk == i { CrashCut(data, i, crash.value.written); }
  }

  /** Served the file's own bytes, however many arrive, the chunk loop leaves exactly what they carry. */
  lemma {:induction false} OwnFetch(a: Aead, prefix: seq<byte>, data: seq<byte>, last: nat, crash: Option<Crash>,
                                    body: seq<byte>, i: nat, part: seq<byte>)
    requires TagLengths(a) && OpensFile(a, prefix, data) && |prefix| == PREFIX_LEN
    requires i <= ChunkCount(|data|) < TWO32 && last == |data| - (ChunkCount(|data|) - 1) * CHUNK + TAG
    requires OwnBody(a, prefix, data, body, i) && part == Front(data, i)
    ensures FetchFrom(a, prefix, ChunkCount(|data|), last, crash, body, i, i, part) ==
            Outcome(data, crash, i, Reached(ChunkCount(|data|), last, i, |body|))
    decreases ChunkCount(|data|) - i
  {
    var n, len := ChunkCount(|data|), CipherChunkLen(ChunkCount(|data|), last, i);
    if i < n { ReachedStep(n, last, i, |body|); }
    if i < n && |body| >= len {
      OwnChunk(a, prefix, data, last, body, i);
      FetchTakes(a, prefix, n, last, crash, body, i, part, PlainChunk(data, i));
      OutcomeGoesOn(data, crash, i, Reached(n, last, i, |body|));
      FrontGrows(data, i);
      OwnFetch(a, prefix, data, last, crash, body[len..], i + 1, part + PlainChunk(data, i));
    } else {
      FetchStops(a, prefix, n, last, crash, body, i, part);
      OutcomeStops(data, crash, i);
    }
  }

  /** Body bytes that arrive: a fresh read spends its first bytes on the header. */
  function BodyBytes(delivered: nat, blobLen: nat, i: nat): (m: nat)
  {
    if i == 0 then Max(Min(delivered, blobLen) - HEADER_LEN, 0)
    else Min(delivered, Max(blobLen - HEADER_LEN - i * CIPHER_CHUNK, 0))
  }

  /** Served the file's own blob, an attempt reads its header, unless the stream ends inside it, and its own bytes. */
  lemma OwnReader(a: Aead, prefix: seq<byte>, data: seq<byte>, at: Attempt, done: nat)
    requires TagLengths(a) && |prefix| == PREFIX_LEN && at.served == Blob(a, prefix, data)
    ensures var r, i := HeaderAndBody(at, done), done / CHUNK;
            && |at.served| == CipherLen(|data|)
            && (r.Some? ==> r.value.0 == Header(prefix) && OwnBody(a, prefix, data, r.value.1, i)
                            && |r.value.1| == BodyBytes(at.delivered, |at.served|, i))
            && (r.None? ==> i == 0 && BodyBytes(at.delivered, |at.served|, i) == 0)
  {
    BlobLength(a, prefix, data);
    assert Blob(a, prefix, data)[..HEADER_LEN] == Header(prefix);
    if done / CHUNK == 0 && HeaderAndBody(at, done).Some? { FirstStream(at); }
  }

  lemma FirstStream(at: Attempt)
    requires |Stream(at, 0)| >= HEADER_LEN
    ensures Stream(at, 0)[..HEADER_LEN] == at.served[..HEADER_LEN]
    ensures IsPrefix(Stream(at, 0)[HEADER_LEN..], Drop(at.served, HEADER_LEN))
    ensures |Stream(at, 0)| == Min(at.delivered, |at.served|)
  {
  }

  /** How many chunks are complete when an attempt served the file's own blob stops receiving. */
  ghost function ChunksAfter(len: nat, at: Attempt, i: nat): (k: nat)
    requires i <= ChunkCount(len)
  {
    Reached(ChunkCount(len), len - (ChunkCount(len) - 1) * CHUNK + TAG, i, BodyBytes(at.delivered, |at.served|, i))
  }

  /** The part file names a chunk of the file, and the layout is the file's. */
  lemma OwnLayout(data: seq<byte>, part: seq<byte>)
    requires ChunkCount(|data|) < TWO32 && IsPrefix(part, data)
    requires |part| % CHUNK == 0 && (|part| < |data| || |part| == 0)
    ensures var n, i := ChunkCount(|data|), |part| / CHUNK;
            && i < n && i % TWO32 == i && part == Front(data, i)
            && ChunkLayout(CipherLen(|data|)) == Ok((n, |data| - (n - 1) * CHUNK + TAG))
  {
    LayoutOfCipherLen(|data|);
    ChunkIndex(|part|, |data|);
  }

  /** Fetching starts at the chunk the part file names, with the header that was read. */
  lemma FetchedIs(a: Aead, prefix: seq<byte>, data: seq<byte>, at: Attempt, part: seq<byte>)
    requires |prefix| == PREFIX_LEN && ChunkCount(|data|) < TWO32 && IsPrefix(part, data)
    requires |part| % CHUNK == 0 && (|part| < |data| || |part| == 0)
    requires HeaderAndBody(at, |part|).Some? ==> HeaderAndBody(at, |part|).value.0 == Header(prefix)
    ensures var n, i, r := ChunkCount(|data|), |part| / CHUNK, HeaderAndBody(at, |part|);
            Fetched(a, CipherLen(|data|), at, part) ==
            if r.None? then (part, false)
            else FetchFrom(a, prefix, n, |data| - (n - 1) * CHUNK + TAG, at.crash, r.value.1, i, i, part)
  {
    OwnLayout(data, part);
    assert Header(prefix)[4..] == prefix && GoodHeader(Header(prefix));
  }

  lemma OwnResume(a: Aead, prefix: seq<byte>, data: seq<byte>, at: Attempt, part: seq<byte>)
    requires TagLengths(a) && OpensFile(a, prefix, data) && |prefix| == PREFIX_LEN && ChunkCount(|data|) < TWO32
    requires at.served == Blob(a, prefix, data) && IsPrefix(part, data)
    requires |part| % CHUNK == 0 && (|part| < |data| || |part| == 0)
    ensures |part| / CHUNK < ChunkCount(|data|)
    ensures Fetched(a, CipherLen(|data|), at, part) ==
            Outcome(data, at.crash, |part| / CHUNK, ChunksAfter(|data|, at, |part| / CHUNK))
  {
    var n, i := ChunkCount(|data|), |part| / CHUNK;
    var last, reader := |data| - (n - 1) * CHUNK + TAG, HeaderAndBody(at, |part|);
    OwnLayout(data, part);
    OwnReader(a, prefix, data, at, |part|);
    FetchedIs(a, prefix, data, at, part);
    if reader.Some? {
      OwnFetch(a, prefix, data, last, at.crash, reader.value.1, i, part);
    } else {
      ReachedStep(n, last, i, 0);
      OutcomeStops(data, at.crash, i);
    }
  }

  /** The chunks complete when the attempt ends; none are fetched if the part file covers the file. */
  ghost function ChunksHeld(len: nat, at: Attempt, d: Disk): (k: nat)
  {
    if Covers(d, len) || |d.part| / CHUNK >= ChunkCount(len) then ChunkCount(len)
    else ChunksAfter(len, at, |d.part| / CHUNK)
  }

  /** The disk write dies before the attempt is through. */
  ghost predicate DiskDies(len: nat, at: Attempt, d: Disk)
  {
    !Covers(d, len) && Hits(at.crash, |d.part| / CHUNK, ChunksHeld(len, at, d))
  }

  /** A part file that already covers the file, whatever is in it, is finished with exactly the expected length. */
  lemma CoveredAttempt(a: Aead, expected: nat, at: Attempt, d: Disk)
    requires expected < TWO64 && Covers(d, expected)
    ensures expected <= |d.part|
    ensures RunAttempt(a, expected, at, d) ==
            if at.renameWorks then Disk([], Some(d.part[..expected])) else Disk(d.part[..expected], d.out)
    ensures Completes(a, expected, at, d) <==> at.renameWorks
  {
    assert Take(d.part[..WholeChunks(|d.part|)], expected) == d.part[..expected];
  }

  /** Nothing is fetched behind a header that is short or does not start with the format's magic bytes. */
  lemma BadHeaderStops(a: Aead, expected: nat, at: Attempt, d: Disk)
    requires expected < TWO64 && !Covers(d, expected)
    requires |at.served| < HEADER_LEN || at.served[..4] != MAGIC
    ensures RunAttempt(a, expected, at, d) == Disk(d.part[..WholeChunks(|d.part|)], d.out)
    ensures !Completes(a, expected, at, d)
  {
    var done := WholeChunks(|d.part|);
    if done / CHUNK == 0 && HeaderAndBody(at, done).Some? { FirstStream(at); }
    if HeaderAndBody(at, done).Some? { assert HeaderAndBody(at, done).value.0[..4] == at.served[..HEADER_LEN][..4]; }
  }

  /** Cutting the part file to whole chunks keeps their number. */
  lemma WholePart(d: Disk, data: seq<byte>)
    requires IsPrefix(d.part, data)
    ensures var part := d.part[..WholeChunks(|d.part|)];
            && IsPrefix(part, data) && |part| % CHUNK == 0 && |part| / CHUNK == |d.part| / CHUNK
            && (Covers(d, |data|) <==> |part| > 0 && |part| >= |data|)
  {
  }

  lemma UncoveredAttempt(a: Aead, prefix: seq<byte>, data: seq<byte>, at: Attempt, d: Disk)
    requires TagLengths(a) && OpensFile(a, prefix, data) && |prefix| == PREFIX_LEN && ChunkCount(|data|) < TWO32
    requires at.served == Blob(a, prefix, data) && IsPrefix(d.part, data) && !Covers(d, |data|)
    ensures |data| < TWO64 && |d.part| / CHUNK < ChunkCount(|data|)
    ensures var r := Outcome(data, at.crash, |d.part| / CHUNK, ChunksAfter(|data|, at, |d.part| / CHUNK));
            && RunAttempt(a, |data|, at, d) ==
               (if r.1 && at.renameWorks then Disk([], Some(r.0)) else Disk(r.0, d.out))
            && (Completes(a, |data|, at, d) <==> r.1 && at.renameWorks)
  {
    var part := d.part[..WholeChunks(|d.part|)];
    WholePart(d, data);
    EncryptedSizeOf(|data|);
    OwnResume(a, prefix, data, at, part);
  }

  /**
   * Exactly what an attempt gets done when it is served the file's own blob, from any sound disk: it goes on from the
   * whole chunks on disk and adds every chunk that arrives completely, up to the byte at which the disk write dies.
   */
  lemma AttemptGetsDone(a: Aead, prefix: seq<byte>, data: seq<byte>, at: Attempt, d: Disk)
    requires TagLengths(a) && OpensFile(a, prefix, data) && |prefix| == PREFIX_LEN && ChunkCount(|data|) < TWO32
    requires at.served == Blob(a, prefix, data) && Sound(d, data)
    ensures var k, dies := ChunksHeld(|data|, at, d), DiskDies(|data|, at, d);
            var held := if dies then Held(|data|, at.crash, |d.part| / CHUNK, k) else Min(k * CHUNK, |data|);
            && |data| < TWO64
            && (Completes(a, |data|, at, d) <==> k == ChunkCount(|data|) && !dies && at.renameWorks)
            && RunAttempt(a, |data|, at, d) ==
               if Completes(a, |data|, at, d) then Disk([], Some(data)) else Disk(data[..held], d.out)
  {
    assert data[..|data|] == data;
    if Covers(d, |data|) {
      EncryptedSizeOf(|data|);
      CoveredAttempt(a, |data|, at, d);
    } else {
      UncoveredAttempt(a, prefix, data, at, d);
    }
  }

  predicate Undisturbed(at: Attempt, blob: seq<byte>)
  {
    at.served == blob && at.delivered >= |blob| && at.crash.None? && at.renameWorks
  }

  /** From any sound disk state an undisturbed attempt finishes with exactly the plaintext. */
  lemma UndisturbedFinishes(a: Aead, prefix: seq<byte>, data: seq<byte>, at: Attempt, d: Disk)
    requires TagLengths(a) && OpensFile(a, prefix, data) && |prefix| == PREFIX_LEN && ChunkCount(|data|) < TWO32
    requires Undisturbed(at, Blob(a, prefix, data)) && Sound(d, data)
    ensures |data| < TWO64 && RunAttempt(a, |data|, at, d) == Disk([], Some(data)) && Completes(a, |data|, at, d)
  {
    AttemptGetsDone(a, prefix, data, at, d);
    BlobLength(a, prefix, data);
  }

  /** Any number of interrupted attempts followed by one undisturbed attempt delivers the plaintext. */
  lemma DownloadDelivers(a: Aead, log: Log, prefix: seq<byte>, data: seq<byte>, attempts: seq<Attempt>, final: Attempt)
    requires Setting(a, log, prefix, data)
    requires forall at | at in attempts :: ServesHeader(at, prefix)
    requires Undisturbed(final, Blob(a, prefix, data))
    ensures |data| < TWO64
    ensures RunAttempt(a, |data|, final, Run(a, |data|, attempts, Disk([], None))) == Disk([], Some(data))
  {
    RunSound(a, log, prefix, data, attempts, Disk([], None));
    UndisturbedFinishes(a, prefix, data, final, Run(a, |data|, attempts, Disk([], None)));
  }

  // ---------------------------------------------------------------- enough attempts finish

  /** The own blob is served, the rename works, and at least one further chunk arrives and reaches the disk. */
  ghost predicate Advances(len: nat, blob: seq<byte>, at: Attempt, d: Disk)
  {
    var n, i := ChunkCount(len), |d.part| / CHUNK;
    && at.served == blob && at.renameWorks
    && (!Covers(d, len) ==>
          && BodyBytes(at.delivered, |blob|, i) >= CipherChunkLen(n, len - (n - 1) * CHUNK + TAG, i)
          && !Hits(at.crash, i, i + 1))
  }

  /** What is held after further chunks were completed but the file was not. */
  lemma HeldFurther(len: nat, crash: Option<Crash>, i: nat, k: nat)
    requires i < k <= ChunkCount(len) && !Hits(crash, i, i + 1) && (k < ChunkCount(len) || Hits(crash, i, k))
    ensures Held(len, crash, i, k) / CHUNK > i && i + 1 < ChunkCount(len)
  {
    var c := if Hits(crash, i, k) then crash.value.chunk else k;
    assert i + 1 <= c < ChunkCount(len);
    assert (i + 1) * CHUNK <= c * CHUNK <= Held(len, crash, i, k);
    assert ((i + 1) * CHUNK) / CHUNK == i + 1;
  }

  /** Such an attempt finishes, or leaves more whole chunks than before and some still to fetch. */
  lemma AdvanceStep(a: Aead, prefix: seq<byte>, data: seq<byte>, at: Attempt, d: Disk)
    requires TagLengths(a) && OpensFile(a, prefix, data) && |prefix| == PREFIX_LEN && ChunkCount(|data|) < TWO32
    requires Sound(d, data) && Advances(|data|, Blob(a, prefix, data), at, d)
    ensures |data| < TWO64 && Sound(RunAttempt(a, |data|, at, d), data)
    ensures var d', i := RunAttempt(a, |data|, at, d), |d.part| / CHUNK;
            if Completes(a, |data|, at, d) then d' == Disk([], Some(data))
            else |d'.part| / CHUNK > i && i + 1 < ChunkCount(|data|)
  {
    AttemptGetsDone(a, prefix, data, at, d);
    if !Covers(d, |data|) {
      UncoveredAttempt(a, prefix, data, at, d);
      var n, i := ChunkCount(|data|), |d.part| / CHUNK;
      var last := |data| - (n - 1) * CHUNK + TAG;
      ReachedStep(n, last, i, BodyBytes(at.delivered, |at.served|, i));
      if !Completes(a, |data|, at, d) { HeldFurther(|data|, at.crash, i, ChunksHeld(|data|, at, d)); }
    }
  }

  /** Each of the next m attempts that is made advances. */
  ghost predicate KeepsAdvancing(a: Aead, len: nat, blob: seq<byte>, at: nat -> Attempt, d: Disk, k: nat, m: nat)
    requires len < TWO64
    decreases m
  {
    m == 0
      || (Advances(len, blob, at(k), d)
          && (Completes(a, len, at(k), d)
              || KeepsAdvancing(a, len, blob, at, RunAttempt(a, len, at(k), d), k + 1, m - 1)))
  }

  /**
   * If every attempt advances by at least one chunk, the download finishes within as many attempts as there are chunks
   * left, from whatever sound disk earlier attempts left behind.
   */
  lemma {:induction false} RetriesFinish(a: Aead, prefix: seq<byte>, data: seq<byte>, retries: nat, at: nat -> Attempt,
                                         cancelled: nat -> bool, d: Disk, k: nat)
    requires TagLengths(a) && OpensFile(a, prefix, data) && |prefix| == PREFIX_LEN && ChunkCount(|data|) < TWO32
    requires |data| < TWO64 && Sound(d, data) && k <= retries && forall j: nat :: !cancelled(j)
    requires ChunkCount(|data|) - |d.part| / CHUNK <= retries + 1 - k
    requires KeepsAdvancing(a, |data|, Blob(a, prefix, data), at, d, k, retries + 1 - k)
    ensures RetryFrom(a, |data|, retries, at, cancelled, d, k) == (Disk([], Some(data)), true)
    decreases retries - k
  {
    AdvanceStep(a, prefix, data, at(k), d);
    if !Completes(a, |data|, at(k), d) {
      RetriesFinish(a, prefix, data, retries, at, cancelled, RunAttempt(a, |data|, at(k), d), k + 1);
    }
  }

  /**
   * Whatever the attempts are served: success leaves exactly the file, giving up leaves no part file and no other
   * finished file than before.
   */
  lemma {:induction false} RetriesSound(a: Aead, log: Log, prefix: seq<byte>, data: seq<byte>, retries: nat,
                                        at: nat -> Attempt, cancelled: nat -> bool, d: Disk, k: nat)
    requires Setting(a, log, prefix, data) && |data| < TWO64 && Sound(d, data) && k <= retries
    requires forall j: nat :: ServesHeader(at(j), prefix)
    ensures var (d', ok) := RetryFrom(a, |data|, retries, at, cancelled, d, k);
            d' == if ok then Disk([], Some(data)) else Disk([], d.out)
    decreases retries - k
  {
    AttemptKeeps(a, log, prefix, data, at(k), d);
    AttemptSound(a, log, prefix, data, at(k), d);
    if !Completes(a, |data|, at(k), d) && k < retries {
      RetriesSound(a, log, prefix, data, retries, at, cancelled, RunAttempt(a, |data|, at(k), d), k + 1);
    }
  }

  /** No attempt is made after the last retry or after a cancel: what it would have met makes no difference. */
  lemma {:induction false} NoAttemptAfter(a: Aead, expected: nat, retries: nat, at: nat -> Attempt,
                                          at': nat -> Attempt, cancelled: nat -> bool, d: Disk, k: nat, stop: nat)
    requires expected < TWO64 && k <= stop <= retries && (stop == retries || cancelled(stop))
    requires forall j: nat | j <= stop :: at(j) == at'(j)
    ensures RetryFrom(a, expected, retries, at, cancelled, d, k) ==
            RetryFrom(a, expected, retries, at', cancelled, d, k)
    decreases stop - k
  {
    if k < stop {
      NoAttemptAfter(a, expected, retries, at, at', cancelled, RunAttempt(a, expected, at(k), d), k + 1, stop);
    }
  }
}
