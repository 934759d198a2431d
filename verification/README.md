# Verification of the encrypted storage engine

A Dafny model of the parts of the engine that decide which bytes go where, in what order, and what survives an
interruption, with proofs about every input, every interleaving or every run.

`dafny verify dfyconfig.toml` checks the whole project. Every module is one file.

| module | what it models |
|---|---|
| `Layout`, `Crypto`, `Authenticity` | the chunked file format: size arithmetic on 64-bit words, sealing and opening, and what an ideal cipher guarantees against a storage provider that may return any bytes |
| `Upload`, `Download` | streaming multipart upload against one-shot encryption; resumable download across interrupted attempts |
| `Manifests`, `ManifestStore` | per-directory manifests and their write-back buffer, as an interleaved protocol of loads, edits and flushes |
| `Paths`, `Index`, `IndexEffects`, `DirView`, `Expand`, `FolderRoundTrip` | names to on-disk keys and back: recording, listing, folder expansion |
| `Rename`, `Session`, `FolderMove` | renaming, moving and deleting: the objects, the buffered and the stored manifests, and what a folder contains afterwards |
| `Hub`, `RateLimit`, `Watchdog`, `PacedBody` | the transfer batch protocol, the token bucket, the stall watchdog, retry-safe progress |
| `Nfs`, `NfsDelete`, `NfsRun` | the directory-handle cache, the recursive delete and whole client sessions, over LOOKUP, CREATE, MKDIR, REMOVE, RMDIR and READDIRPLUS of RFC 1813 |

## Main results

- **No edit is lost.** In every interleaving of any number of loaders, editors and flushers in which all writes of a
  directory in flight carry the same fingerprint, the buffer tells the truth about the backend
  (`BufferAgreesWithBackend`) and a final flush stores every edit in lock order (`FlushStoresEveryEdit`). The condition
  is exact: an edit can be lost for good if and only if two writes under different fingerprints can overlap
  (`LossIffOverlap`). What a flush takes is exact too: the directories that differ from what is stored and, for a timer
  flush, have been quiet for the interval (`DueIff`).
- **Expansion is exact on every backend.** The folder walk terminates and yields each target exactly as often as stated
  (`ExpandFolder`); it returns every visible object if and only if it descends to every visible key (`AllOutIff`), and
  each once if and only if no folder is doubled (`OnceEachIff`). Without empty segments that is: exactly the visible
  objects, once each (`CleanExpansion`). Hence any batch of different paths uploaded under a fresh folder comes back
  exactly, with keys and plaintext sizes (`UploadThenExpand`, `ExpandUploaded`), and of whatever else is there every
  target has the size and name its directory's manifest gives it, or else its plaintext size and on-disk name
  (`TargetIs`).
- **Folder renames and moves, through both levels of manifests, onto any target.** An operation is harmless, a
  condition on the buffer and bucket that can be checked beforehand, if and only if it leaves every directory reading as
  it was meant to (`OpReadsIff`, one directory at a time `OpReadsAt`). Over whole runs, harmful operations included,
  every directory outside the stale ones reads as all operations meant (`RunReads`), and while the moved folders read
  alike in their new place, stale means below a prefix that was abandoned (`StaleIsAbandoned`). A rename followed by an
  expansion returns the folder's contents with only the key prefix and the folder's name changed (`RenameThenExpand`);
  the worker's rename, move and delete fail only for a refused name or a failed request (`RenameFolder`, `MoveFolder`,
  `DeleteFolder`).
- **Index coherence on every run.** Whatever the targets hold or contain, and wherever backend calls break off, every
  record of both levels stays under the on-disk name of the name it holds (`RunCoherent`).
- **No object is invented, and losses are exact.** After both directory renames, finished or failed, every object is an
  old one moved by the prefix swap; a finished one loses nothing if and only if no copy lands in the rename's own way and
  no swapped key is taken (`S3RenameDir`, `DefaultRenameDir`, `SubstitutionExact`).
- **Interrupted downloads are safe and get on.** Whatever body bytes each attempt is served, wherever it breaks off, the
  part file stays a prefix of the plaintext, keeps at least its whole chunks, and a finished file is the plaintext
  (`RunSound`, `AttemptKeeps`). What an attempt served the file's own bytes gets done is exact (`AttemptGetsDone`), so
  retries that each bring one more chunk finish within as many attempts as chunks are left (`RetriesFinish`).
- **Tamper evidence is exact.** Of all blobs that carry a file's prefix its own is the only one accepted, if and only if
  the file has at most 2^31 chunks (`TamperEvidentIffAtMost2To31Chunks`).
- **Streaming refines one-shot.** For every pattern of short reads and every part size, the uploaded parts
  concatenate to the one-shot encryption and obey the part-size rules (`UploadMultipart`).
- **NFS sessions.** After any sequence of operations of one client that uses no path both as a file and as a directory,
  every cached handle is what LOOKUP returns and the tree is what the operations mean (`NfsRun.RunSession`); the
  recursive delete removes exactly the subtree, and at the export root empties it and ends in an error
  (`NfsDelete.Deleter.DeleteDir`).
- **Transfer batches.** In every interleaving each batch reports once, with counts that tell exactly how its tasks ended
  (`FinishedOnceWithExactCounts`, `OutcomeIsHowItEnded`); a task cancelled, alone or with its batch, before it looked
  never transfers (`CancelledNeverRuns`, `CancelledBatchNeverRuns`), and nobody else is turned away
  (`OnlyCancelTurnsAway`).
- **Pacing, stalls, progress**: `GrantedInWindow`, `GrantableIffFits`, `EarliestGrant`, `StallIsReal`, `FreezeIsCaught`,
  `ReportsAddUp`, `PumpBody`.

## Where the code and its comments disagree

The model follows the code. Each line names the member that shows it.

- src/manifest.rs:204-205 says a fingerprint collision only skips a redundant write. A changed directory whose
  fingerprint equals the stored one is never written by any flush: `CollisionIsNeverWritten` (if and only if).
- src/ratelimit.rs:19-24 says the burst floor exceeds the largest single request. An encrypted download charges a
  sealed chunk, 16 bytes more than the floor; it can be granted if and only if the rate is at least that many bytes per
  second: `FullChunkNeedsAChunkPerSecond`.
- Two flushes may overlap (src/worker.rs:332, 1269, 1908, 2071). Two writes of a directory in flight under different
  fingerprints can always be continued to a state in which memory and backend differ, nothing is in flight and no flush
  will ever write: `IncompatibleCanLose`. A fresh session reaches such an overlap: `OverlapIsReachable`.
- `forget` is meant to keep a renamed or deleted folder's buffered manifests from being read or flushed back
  (src/worker.rs:1942-1945, 2059-2063) but is called with the trailing slash trimmed while buffer keys keep it, so it
  evicts nothing: `ForgetNothing`. Consequences: the old folder reappears after the next flush if and only if something
  below it was buffered with changes (`ReappearsIff`); after browsing A, renaming A to B and C to A, the folder A holds
  C's objects but reads A's old manifest (`ReusedNameReadsStale`), lists C's files as unrecovered
  (`StaleShowsUnrecovered`), and the next flushed edit writes the old manifest over C's (`StaleOverwrites`).
- src/worker.rs:1047-1094 reads the leaf of a listed prefix behind a doubled slash as its parent's: for the keys a//x
  and a/a/y the walk of a/ yields a/a/y twice and a//x never: `EmptySegmentsFail`.
- src/dir_view.rs:50-54 promises that the parent prefix composes with any destination; it does exactly for directory
  prefixes: `ParentPrefixComposes`.
- src/worker.rs:1807 and src/storage/mod.rs:221 speak of a 12-byte header; the header is 24 bytes (src/crypto.rs:32).
- The default directory rename loses the whole subtree when the target lies inside the source (`DefaultRenameDir`). The
  worker's guards exclude it: `MoveNeverIntoItself`, `RenameNeverIntoItself`.
- A move has no collision check (src/worker.rs:1957-1979). Moving a file onto an existing key replaces that object
  (`FileMoveExact`). Moving a folder onto one of the same name replaces its manifest, so the target's own files become
  unrecovered (`MergeForgetsTarget`, `StaleShowsUnrecovered`). Moving x/L/L/ into x/ passes the guards, but the copy of
  x/L/L/L/z lands on the source x/L/L/z and is deleted with it (`NestedMoveLoses`).

## Hypotheses

- Manifest store: all writes of a directory in flight carry the same fingerprint (one flusher at a time is enough:
  `OneFlusherIsCompatible`); a failed put has no effect; `.rse` objects are written only by flushes. The fingerprint may
  collide; where equality of manifests is concluded, absence of a collision between exactly those two is assumed.
- Cipher: tags are 16 bytes; the file's own chunks open; only sealed pairs open, and under the file's prefix only this
  file was sealed. Other prefixes may hold anything. `SettingExists` shows that every file admits such a setting.
- Download: the header served is the file's; everything after it may be arbitrary.
- Name hashing: injective and 64 upper-case hex characters on the finite set of names in play.
- 64-bit arithmetic wraps, as in a release build; the exact conditions under which it does not are proved.
- NFS: one client and handles are not reused; for whole sessions, no path is used both as a file and as a directory.
  File-system backends have no marker object for a directory.
- Sessions: operations run one after another, and a stored manifest can be read. For what directories read, the objects
  of a folder operation landed under the swapped prefix; beside the source they always do (`ArrivedLands`), and
  coherence does not need it.
- A failed backend request has no effect of its own.

## Model

| member | source | states |
|---|---|---|
| `Layout.ChunksAgree` | src/crypto.rs:155-162 | the computed chunk count is the only count whose chunks hold the plaintext |
| `Layout.EncryptedSizeExact` | src/crypto.rs:155-162 | the 64-bit size is the true size if and only if the true size fits 64 bits |
| `Layout.WireLenAgrees` | src/worker.rs:1106-1110 | the worker's size and the format's size agree if and only if the rounding addition does not overflow |
| `Layout.SizesAgree` | src/worker.rs:1106-1110 | whenever the true size fits, both computations give it |
| `Layout.LayoutOfCipherLen` | src/crypto.rs:165-178 | reading a layout off a ciphertext length gives the true chunk count and last length |
| `Layout.LayoutCovers` | src/crypto.rs:165-178 | an accepted layout accounts for every byte of the blob |
| `Layout.AcceptedLengths` | src/crypto.rs:165-178 | the accepted lengths are exactly the ciphertext lengths plus full chunks followed by one empty chunk, and the two kinds are disjoint |
| `Layout.PlaintextInvertsCipherLen` | src/worker.rs:2251-2269 | the plaintext size is recovered from every ciphertext size |
| `Layout.PlaintextAgreesWithLayout` | src/worker.rs:2251-2269 | for every accepted length the plaintext size is what the layout holds, and a length too small for a header and a tag holds nothing |
| `Crypto.Encryptor.SealChunk` | src/crypto.rs:94-104 | seals under the nonce of the current counter and advances; fails exactly when the counter is exhausted |
| `Crypto.Decryptor.OpenChunk` | src/crypto.rs:128-138 | opens under the nonce of the current counter; the counter advances also when authentication fails, and stays when it is exhausted |
| `Crypto.Decryptor.SeekTo` | src/crypto.rs:141-143 | the next chunk opened is the one sought |
| `Crypto.EncryptBytes` | src/crypto.rs:181-194 | the loop produces the format (header, then every chunk sealed in place) for every file, and fails exactly from 2^32 chunks on |
| `Crypto.DecryptBytes` | src/crypto.rs:196-208 | computes the reference decryption of any blob, error cases included, and consumes an accepted blob to its last byte |
| `Crypto.BlobLength` | src/crypto.rs:155-194 | the blob has exactly the predicted length |
| `Crypto.BlobSlice` | src/crypto.rs:181-194 | chunk i of the blob sits at its computed offset with its computed length |
| `Crypto.RoundTrip` | src/crypto.rs:181-208 | decrypting what was encrypted gives the file back, up to the 32-bit counter |
| `Authenticity.NonceBytes` | src/crypto.rs:146-152 | a nonce is the prefix and the counter in big-endian order, with the top bit set on the last chunk |
| `Authenticity.NoncesDistinct` | src/crypto.rs:146-152 | no nonce is used twice within a file, up to 2^32-1 chunks |
| `Authenticity.AcceptedChunk` | src/crypto.rs:128-152 | a chunk accepted at a counter is one of the file's sealed chunks with the same nonce counter |
| `Authenticity.SameChunkCount` | src/crypto.rs:146-208 | up to 2^31 chunks neither truncation nor extension is accepted |
| `Authenticity.AcceptedIsOriginal` | src/crypto.rs:196-208 | up to 2^31 chunks an accepted blob that carries the file's prefix, whatever stands before it, is byte for byte the original |
| `Authenticity.SplicedAccepted` | src/crypto.rs:146-152 | beyond 2^31 chunks a shorter blob that was never produced is accepted |
| `Authenticity.TamperEvidentIffAtMost2To31Chunks` | src/crypto.rs:146-208 | of all blobs that carry the file's prefix the original is the only one accepted if and only if the file has at most 2^31 chunks |
| `Authenticity.SettingExists` | src/crypto.rs:67-104 | every prefix and file admits an ideal cipher and log, so the results above are not vacuous |
| `Upload.PartSizeFloor` | src/worker.rs:1376-1376 | the part size honours the 5 MiB minimum if and only if the 64-bit product does not wrap below it; it is what was configured, from the minimum on and while the product fits |
| `Upload.WireIsOneShot` | src/worker.rs:1376-1447 | what the parts must concatenate to is the one-shot encryption, or the file itself without a vault |
| `Upload.ReadChunk` | src/worker.rs:1406-1413 | whatever sizes the reads return, the buffer holds the next chunk of the file |
| `Upload.AppendPiece` | src/worker.rs:1417-1441 | no byte is lost between buffer and parts; a part goes out only when full or last; the minimum-size error comes exactly for a full part that is not the last and too small |
| `Upload.UploadMultipart` | src/worker.rs:1364-1455 | the parts concatenate to the one-shot form, are numbered from 1, all but the last reach the part size, all stay below it plus one chunk; it succeeds only if no chunk was preceded by a cancel, and fails only for one, for a wrapped part size or from 2^32 chunks on |
| `Upload.WireLength` | src/worker.rs:1106-1110 | the bytes sent for an encrypted file are exactly its ciphertext length |
| `Upload.PartNumbersFit` | src/worker.rs:1397-1441 | the 32-bit part number of an encrypted upload cannot overflow |
| `Download.DownloadTask.DownloadOne` | src/worker.rs:1688-1863 | one attempt leaves exactly the part file and finished file of the reference, for every way it can break off, and reports success exactly when the reference completes |
| `Download.DownloadTask.DownloadWithRetries` | src/worker.rs:1542-1590 | the retry loop leaves the disk and the result of the reference; giving up removes the part file |
| `Download.DownloadTask.FetchChunks` | src/worker.rs:1828-1849 | the chunk loop against its recursive reference, starting at any resume counter |
| `Download.ResumeNamesOneChunk` | src/worker.rs:1707-1753 | truncated part file, network offset and decryptor counter name the same chunk |
| `Download.AttemptSound` | src/worker.rs:1688-1863 | one attempt served any body keeps the part file a prefix and finishes only with the plaintext |
| `Download.RunSound` | src/worker.rs:1688-1863 | the same over any number of attempts |
| `Download.AttemptKeeps` | src/worker.rs:1688-1863 | an attempt that succeeds leaves exactly the file; one that fails, whatever it was served, keeps at least the whole chunks that were there |
| `Download.AttemptGetsDone` | src/worker.rs:1688-1863 | served the file's own blob, an attempt goes on from the whole chunks on disk and adds exactly the chunks that arrive completely, up to the byte at which the disk write dies; it completes exactly when all arrive and the rename works |
| `Download.CoveredAttempt` | src/worker.rs:1707-1735 | a part file that already covers the file, whatever is in it, is cut to exactly the expected length and renamed |
| `Download.BadHeaderStops` | src/worker.rs:1755-1827 | nothing is fetched behind a header that is short or lacks the magic bytes |
| `Download.UndisturbedFinishes` | src/worker.rs:1688-1863 | from any sound disk state an undisturbed attempt ends with exactly the plaintext |
| `Download.DownloadDelivers` | src/worker.rs:1688-1863 | any interrupted attempts followed by an undisturbed one deliver the plaintext and remove the part file |
| `Download.RetriesFinish` | src/worker.rs:1542-1590 | if each attempt brings at least one further chunk, the download finishes within as many attempts as there are chunks left, from whatever sound disk |
| `Download.RetriesSound` | src/worker.rs:1542-1590 | whatever is served, success leaves exactly the file, and giving up leaves no part file and no other finished file |
| `Download.NoAttemptAfter` | src/worker.rs:1564-1579 | no attempt is made after the last retry or after a cancel |
| `Manifests.TakeInsertRestores` | src/manifest.rs:265-279 | taking an entry out and putting it back is lossless, even when a file and a folder share the key |
| `Manifests.LiveManifest.UpsertFolder` | src/manifest.rs:149-166 | the folder carries the new name; a known one keeps its cached sizes and extra fields, a new one has none; no other key changes |
| `Manifests.LiveManifest.SetFolderSize` | src/manifest.rs:170-183 | only a known folder gets the sizes, its name and extra fields stay, no folder appears, no other key changes |
| `Manifests.LiveManifest.Remove` | src/manifest.rs:186-190 | afterwards the key answers to no name in either kind, every other key is untouched, and the result tells whether there was one |
| `Manifests.LiveManifest.RenameEntry` | src/manifest.rs:227-241 | one entry, a file before a folder, sits under the new key and name with its size or cached sizes kept, the other kind untouched |
| `Manifests.LiveManifest.TakeEntry` | src/manifest.rs:265-272 | finds an entry exactly when the key has a name, a file before a folder; inserting what was taken would restore the manifest |
| `Manifests.LiveManifest.InsertEntry` | src/manifest.rs:274-279 | a take would return the inserted entry unless a file hides a folder; the other kind and every other key are untouched |
| `ManifestStore.Select` | src/manifest_store.rs:65-79 | selects exactly the candidates that differ from the last write and are quiet, or all differing ones when forced |
| `ManifestStore.Store.InsertIfAbsent` | src/manifest_store.rs:141-172 | a fetched manifest never replaces a buffered one |
| `ManifestStore.Store.ApplyEdit` | src/manifest_store.rs:177-193 | an edit changes one directory, marks it dirty and restarts its quiet time |
| `ManifestStore.Store.TakeEntry` | src/manifest_store.rs:275-293 | a take that finds nothing leaves the directory as it was, dirty mark and quiet time included |
| `ManifestStore.Store.Snapshot` | src/manifest_store.rs:203-247 | the jobs of a flush are exactly the directories to write, with their current content and fingerprint |
| `ManifestStore.Store.RecordWrite` | src/manifest_store.rs:254-262 | a recorded write cleans the directory only if it did not change meanwhile |
| `ManifestStore.Store.Forget` | src/manifest_store.rs:269-271 | drops exactly the given key, and nothing at all when the key lost its slash and buffered directories keep theirs |
| `ManifestStore.ForgetEvictsNothing` | src/manifest_store.rs:269-271 | forgetting a slash-trimmed key changes nothing |
| `ManifestStore.RunKeepsInv` | src/manifest_store.rs:141-293 | every compatible interleaving keeps the buffer truthful about the backend |
| `ManifestStore.BufferAgreesWithBackend` | src/manifest_store.rs:141-266 | outside a put/record window the written fingerprint is the stored manifest's, and a clean directory is stored as it is in memory |
| `ManifestStore.MemoryIsHistory` | src/manifest_store.rs:141-193 | a buffered manifest is the initially stored one with every effective edit applied in lock order |
| `ManifestStore.BufferedStays` | src/manifest_store.rs:177-193 | a buffered directory stays buffered, so an edit after a load always finds it |
| `ManifestStore.FlushStoresEveryEdit` | src/manifest_store.rs:196-266 | after a final flush every buffered directory is stored with all its edits, and no later flush writes anything |
| `ManifestStore.CollisionIsNeverWritten` | src/manifest_store.rs:65-79 | a dirty directory is never selected by any flush if and only if its fingerprint equals the stored one's |
| `ManifestStore.RecentIsSkipped` | src/manifest_store.rs:65-79 | in no run does a timer flush write a directory that changed less than the interval ago |
| `ManifestStore.DueIff` | src/manifest_store.rs:65-293 | outside its put/record window a directory is taken by a flush if and only if it differs from what is stored and, for a timer flush, every change of it is at least the interval old |
| `ManifestStore.DirtyIff` | src/manifest_store.rs:177-293 | in every run a directory is dirty exactly while some change of it has not been followed by a recorded write of its current content |
| `ManifestStore.CompatibleNeverLoses` | src/manifest_store.rs:196-266 | at no moment of a compatible run is an edit lost: unstored, with nothing in flight and no flush that would ever write it |
| `ManifestStore.IncompatibleCanLose` | src/manifest_store.rs:249-266 | from any state with two writes of one directory in flight under different fingerprints, in whatever phase, some continuation loses an edit for good |
| `ManifestStore.LossIffOverlap` | src/manifest_store.rs:196-266 | from any point of a compatible run an edit can be lost if and only if such an overlap can come about |
| `ManifestStore.OneFlusherIsCompatible` | src/manifest_store.rs:196-266 | writes that belong to one flush are compatible |
| `ManifestStore.OverlapIsReachable` | src/manifest_store.rs:196-266 | a fresh session reaches two writes of one directory in flight under different fingerprints, for all edits the fingerprint tells apart |
| `Paths.SplitJoin` | src/dir_view.rs:36-46 | splitting undoes joining |
| `Paths.ChildKey` | src/dir_view.rs:94-97 | directory and leaf are read back from a child's key, for a file and for a folder |
| `Paths.ParentPrefixComposes` | src/dir_view.rs:55-61 | the parent prefix of a composed key is the directory if and only if the directory is the root or ends in a slash |
| `Index.RecordUpload` | src/worker.rs:1115-1149 | the recording loop writes exactly one file record and a folder record for each directory on the path |
| `Index.NameForIsTheName` | src/manifest.rs:192-198 | a lookup in a coherent manifest answers with the one name whose on-disk segment is the key |
| `Index.NamesUnique` | src/manifest.rs:137-166 | names are unique per kind in a coherent directory |
| `Index.MoveBackRestores` | src/worker.rs:1981-1997 | moving a file's record away and back restores every directory |
| `IndexEffects.CreateEffect` | src/worker.rs:1886-1911 | creating a folder makes exactly that name known in exactly that directory, keeping a cached size |
| `IndexEffects.DeleteEffect` | src/worker.rs:1931-1942 | deleting forgets exactly that name in exactly that directory |
| `IndexEffects.CacheSizeEffect` | src/worker.rs:2136-2151 | a computed size is cached on exactly that folder, if it is known |
| `IndexEffects.RenameEffect` | src/worker.rs:2018-2070 | a blank, slashed or taken new name refuses the rename; otherwise the entry answers to the new name only, every directory of a folder is known in its new place, and nothing else changes |
| `IndexEffects.MoveEffect` | src/worker.rs:1953-1999 | a move that stays in place or would land inside itself is skipped; otherwise the entry leaves its directory and replaces one of its kind and name in the destination, and every directory of a folder is known in its new place, also when that contains the old one |
| `DirView.BuildListing` | src/dir_view.rs:106-171 | the listing is a stably sorted permutation of the displayed objects, folders first and then by lower-cased name, and the orphan count is the number of unrecorded hash-named objects |
| `DirView.DisplayedExactly` | src/dir_view.rs:106-159 | exactly the objects that are not manifests are displayed |
| `DirView.ManifestHidden` | src/dir_view.rs:111-115 | a directory's manifest never shows |
| `DirView.RecordedObjectShown` | src/dir_view.rs:106-159 | a recorded object is shown under exactly its real name, with a file's recorded or a folder's cached size, else the stored size or 0 |
| `DirView.OrphanShown` | src/dir_view.rs:138-147 | an unrecorded hash-named object is shown by the start of its hash with its stored size, and counted |
| `DirView.ForeignShown` | src/dir_view.rs:148-159 | any other object is shown as stored, under its own name |
| `DirView.LexIs` | src/dir_view.rs:161-165 | names compare at the first character in which they differ, a prefix first |
| `DirView.InsertIsStable` | src/dir_view.rs:161-165 | entries that sort alike keep the order of the listing |
| `Expand.ListDir` | src/storage/s3.rs:182-234 | a delimited listing holds each object or common prefix once |
| `Expand.Visit` | src/worker.rs:1072-1090 | one directory contributes exactly its non-metadata files and folders |
| `Expand.Advance` | src/worker.rs:1070-1091 | processing one directory conserves, for every target, what is out plus what the stack still yields |
| `Expand.ExpandFolder` | src/worker.rs:1047-1094 | on every backend and in every listing order the walk terminates and yields every target exactly as often as the stated count |
| `Expand.DirectoryYields` | src/worker.rs:1072-1090 | a directory yields exactly what the entries of its listing yield together, doubled slashes included |
| `Expand.OutIff` | src/worker.rs:1047-1094 | exactly the targets of visible keys the walk descends to come out, with real path and plaintext size |
| `Expand.TargetIs` | src/worker.rs:1072-1090 | every target is sized and named by its own directory's manifest, or if that does not know it by the plaintext size of the stored ciphertext and the on-disk segment, behind the real path of its directory |
| `Expand.VisibleIff` | src/worker.rs:1072-1076 | visible are exactly the files no manifest or vault-key name leads to |
| `Expand.WalkedIsClean` | src/worker.rs:1074-1080 | below a named directory the walk descends exactly to the keys without empty segments |
| `Expand.AllOutIff` | src/worker.rs:1047-1094 | every visible object comes out if and only if the walk descends to every visible key |
| `Expand.OnceEachIff` | src/worker.rs:1047-1094 | every target comes out once if and only if none lies below a folder doubled by a neighbouring empty segment |
| `Expand.CleanExpansion` | src/worker.rs:1047-1094 | without empty segments exactly the visible objects come out, once each |
| `Expand.EmptySegmentsFail` | src/worker.rs:1072-1081 | for the keys a//x and a/a/y the walk yields a/a/y twice and never a//x |
| `FolderRoundTrip.PathKeyInjective` | src/dir_view.rs:36-46 | different paths have different keys |
| `FolderRoundTrip.UploadKeyIs` | src/worker.rs:1284-1287 | the key an upload writes is the destination followed by the hashed segments |
| `FolderRoundTrip.RecordedSegments` | src/worker.rs:1115-1124 | the recording loop sees exactly the segments the relative path was joined from |
| `FolderRoundTrip.RecordKeeps` | src/worker.rs:1115-1149 | recording an upload forgets nothing except an older file under the same key |
| `FolderRoundTrip.ResolveRecorded` | src/worker.rs:1047-1149 | resolving a recorded path segment by segment gives back the real path and the recorded size |
| `FolderRoundTrip.UploadThenExpand` | src/worker.rs:1047-1149 | any expansion of the folder is exactly the uploaded (key, relative path, size) triples, each once |
| `FolderRoundTrip.ExpandUploaded` | src/worker.rs:1047-1094 | the walk itself, started on the folder's listing key, returns exactly what was uploaded |
| `Rename.Backend.DefaultRenameDir` | src/storage/mod.rs:175-195 | for any target, finished or failed, every object afterwards is an old one moved by the prefix swap; finished, it loses nothing if and only if no copy lands below the source and no swapped key is taken with other content, a failure then leaves every object readable, onto a place inside the source exactly the whole source is lost, and it fails only if a request failed |
| `Rename.Backend.S3RenameDir` | src/storage/s3.rs:455-475 | for any target, marker included, finished or failed, every object afterwards is an old one moved by the prefix swap; finished, it loses nothing if and only if no copy lands on a source or its marker and no swapped key is taken with other content, a failure then leaves every object readable, and it fails only if a request failed, with or without a folder marker |
| `Rename.Backend.DeleteBatches` | src/storage/s3.rs:427-453 | the requests hold at most 1000 keys each and together the keys in order; exactly the keys of the requests that went through are gone, and it fails only if one failed |
| `Rename.Backend.DeleteFolder` | src/worker.rs:1913-1926 | exactly the objects below the prefix and its marker are gone; a failure takes only some of them |
| `Rename.Backend.S3RenameFile` | src/storage/s3.rs:469-474 | one object changes its key and no other does; a missing source is an error that changes nothing |
| `Rename.Backend.DefaultRenameFile` | src/storage/mod.rs:187-194 | one object changes its key and no other does; a missing source is no error and changes nothing |
| `Rename.CopiedThenDeleted` | src/storage/mod.rs:175-195 | a complete copy followed by deleting the sources is the prefix substitution, whatever the target held |
| `Rename.MovedObject` | src/storage/s3.rs:455-475 | for any target, what lies below it afterwards is the counterpart of the source object, else what was there and not below the source |
| `Rename.SubstitutionExact` | src/storage/s3.rs:455-475 | substituting a folder prefix loses nothing if and only if no swapped key is taken with other content, targets containing the source included |
| `Rename.TracedBeside` | src/storage/s3.rs:455-475 | beside the source every key holds what it held or what its counterpart held, also after a failure |
| `Rename.NestedMoveLoses` | src/worker.rs:1957-1979 | moving x/L/L/ into x/ passes the guards and loses an object, in whatever order the objects are copied |
| `Rename.FileMoveExact` | src/worker.rs:1972-1979 | moving a file keeps all others if and only if the target key is unused or equal |
| `Rename.MoveNeverIntoItself` | src/worker.rs:1961-1979 | a folder move that passes the guards never has its source as a prefix of its target |
| `Rename.FolderMovePlanIs` | src/worker.rs:1957-1971 | a folder move is skipped exactly when it stays in place or would land inside itself; otherwise only the parent prefix changes |
| `Rename.FileMovePlanIs` | src/worker.rs:1972-1978 | a file move is skipped exactly when it stays in place; otherwise only the parent prefix changes |
| `Rename.RenameNeverIntoItself` | src/worker.rs:2018-2099 | neither does a folder rename that passes name validation |
| `Rename.RenamePlanIs` | src/worker.rs:2018-2099 | a rename is refused or skipped exactly for blank, slashed or unchanged names; otherwise only the leaf changes, to the on-disk form of the new name |
| `Session.StoredMoved` | src/storage/s3.rs:455-475 | what is stored for every directory after a folder's objects moved onto any target, derived from the objects |
| `Session.OutcomeArrives` | src/storage/mod.rs:175-195 | what both directory renames promise is what a session relies on |
| `Session.ArrivedLands` | src/worker.rs:1957-1979 | beside the source, and wherever copies stay out of the way, the objects land under the swapped prefix |
| `Session.ForgetNothing` | src/worker.rs:2059-2063 | forgetting the trimmed key of a folder evicts nothing |
| `Session.BelowTargetIff` | src/worker.rs:2043-2063 | for any target, everything below it reads as it did below the source if and only if nothing below the target is buffered with other content, everything buffered below the source is what arrives in its place, and no manifest is left over where the source has none |
| `Session.BelowSourceIff` | src/worker.rs:2043-2063 | for any target, everything that is taken away reads empty afterwards if and only if nothing else was buffered there |
| `Session.OpReadsAt` | src/worker.rs:1886-2155 | any operation, one directory at a time: where session and index agreed, the directory reads afterwards as meant if and only if nothing buffered or left over gets in its way |
| `Session.OpReadsIff` | src/worker.rs:1886-2155 | an operation is harmless if and only if it leaves every directory reading as meant and the directory that decides it is undisturbed, which beside the source it always is; only folder operations can do harm |
| `Session.RunReads` | src/worker.rs:1886-2155 | over whole runs of browsing, uploads, flushes and operations, harmful or not, every directory outside the stale ones reads as all operations meant |
| `Session.StaleIsAbandoned` | src/worker.rs:1886-2155 | in a run whose moved folders read alike in their new place, only directories below abandoned prefixes are stale; opening a folder before renaming it is covered |
| `Session.TracedCoherent` | src/storage/s3.rs:455-475 | whatever a directory rename leaves, finished or not, onto any target, every stored manifest is one that was stored before |
| `Session.OpCoherent` | src/worker.rs:1886-2155 | each operation, onto any target, keeps every record, buffered or stored, under the on-disk name of its name |
| `Session.RunCoherent` | src/worker.rs:1886-2155 | the same over any run, harmful or not, onto any targets, with operations breaking midway, for everything the session reads |
| `FolderMove.LoadManifest` | src/manifest_store.rs:141-172 | a load answers with the buffered manifest, else the stored one, and buffers it |
| `FolderMove.FlushForced` | src/manifest_store.rs:196-266 | the flush loop writes and records exactly the changed directories; a failure leaves some of them recorded and needs a failed request |
| `FolderMove.RenameFolder` | src/worker.rs:2010-2072 | the folder rename as the worker runs it, closing flush included: a bad or unchanged name changes nothing, a taken one only loads the parent, otherwise it breaks midway in the backend or is performed; it succeeds exactly with the closing flush, and fails only for a refused name or a failed request |
| `FolderMove.MoveFolder` | src/worker.rs:1953-1999 | the folder move as the worker runs it: skipped exactly where it stays or would land inside itself, otherwise performed or broken midway in the backend; it fails only if a request failed, and then no manifest was touched in memory |
| `FolderMove.DeleteFolder` | src/worker.rs:1913-1950 | the folder delete as the worker runs it leaves objects and buffer exactly as the two-level model says; it fails only if a request failed, and then no manifest was touched in memory |
| `FolderMove.RenameKeepsCoherence` | src/worker.rs:2010-2072 | however a folder rename ends, every record stays under the on-disk name of its name |
| `FolderMove.FolderReadsAlikeIff` | src/worker.rs:1953-2072 | for the whole rename or move, also onto a folder that holds objects: every directory reads in its new place as in the old one if and only if nothing buffered or left over gets in the way |
| `FolderMove.FlushedFolderMoves` | src/worker.rs:1953-2072 | after a run of the store that ends in a final flush, onto a place without manifests, every directory of a moved folder reads as before |
| `FolderMove.ReappearsIff` | src/worker.rs:2059-2071 | after the whole operation (objects, forget, parent edit, forced flush) the old folder exists again if and only if some directory below it was buffered with changes |
| `FolderMove.ReusedNameReadsStale` | src/worker.rs:2043-2063 | after browsing A, renaming A to B and C to A, the folder A stores C's manifest but reads A's old one |
| `FolderMove.StaleShowsUnrecovered` | src/dir_view.rs:138-147 | a file that a directory's stale manifest does not know is listed as unrecovered |
| `FolderMove.StaleOverwrites` | src/manifest_store.rs:177-264 | the next flushed edit of a buffered directory overwrites the stored manifest with the buffered one, edited |
| `FolderMove.MergeForgetsTarget` | src/worker.rs:1957-1979 | moving a folder onto one of the same name makes the target read the moved folder's manifest unless it is buffered |
| `FolderMove.FolderMoveKeepsContents` | src/worker.rs:1953-2099 | rename or move, bucket and expansion together: the targets of the folder afterwards are the old ones with only the key prefix and the folder's own name changed, each once |
| `FolderMove.FlushedExpansion` | src/worker.rs:1047-1094 | an expansion does not notice a flush |
| `FolderMove.RenameThenExpand` | src/worker.rs:2010-2072 | the rename and the walk as the code runs them: when nothing gets in the way and the rename succeeds, the walk of the new folder returns exactly the old contents under the new prefix and name, each once |
| `Hub.TransferHub.Admit` | src/worker.rs:959-988 | admits into the live batch or opens a fresh one with an empty registry |
| `Hub.TransferHub.TaskDone` | src/worker.rs:990-1014 | decrements with saturation and closes the batch exactly when it drains |
| `Hub.RunKeepsInv` | src/worker.rs:877-1015 | every interleaving of admissions, task steps, cancels and events keeps the hub, registry and batch facts |
| `Hub.ClearDropsNothing` | src/worker.rs:959-988 | clearing the token registry on opening drops no live token |
| `Hub.OutstandingExact` | src/worker.rs:959-1014 | outstanding is admitted minus finished, and never saturates |
| `Hub.RunKeepsExact` | src/worker.rs:1214-1259 | in every run each batch's counts are exactly its successful uploads, successful downloads and failed tasks |
| `Hub.FinishedOnceWithExactCounts` | src/worker.rs:990-1014 | a batch emits its final event at most once, only after its last task, telling exactly how each kind of task ended; the counts add up to the admitted tasks minus those skipped by a batch cancel; once all tasks are done the event was sent or can be |
| `Hub.CancelledNeverRuns` | src/worker.rs:936-956 | a cancel that reaches a registered task before it looked at its token always works, whatever happens afterwards |
| `Hub.CancelledBatchNeverRuns` | src/worker.rs:1228-1257 | a batch cancel that comes before a task looked at its token always works: the task never runs and can only end skipped |
| `Hub.OnlyCancelTurnsAway` | src/worker.rs:1228-1257 | in every run only a cancel turns a task away, and only a batch cancel skips one |
| `Hub.OutcomeIsHowItEnded` | src/worker.rs:1229-1257 | a task succeeded, failed or was skipped exactly when some step of the run ended it so |
| `Hub.CancelledIff` | src/worker.rs:936-950 | a file or batch is cancelled exactly when a cancel reached it; a fresh batch is not |
| `Hub.TaskIsAdmitted` | src/worker.rs:959-988 | a task has the kind and batch it was admitted with, and is admitted once |
| `RateLimit.RateLimiter.Try` | src/ratelimit.rs:74-92 | one pass under the lock refills up to the burst, debits or computes the wait |
| `RateLimit.RateLimiter.Acquire` | src/ratelimit.rs:67-96 | a lone caller whose request fits the burst is granted after at most one sleep, which ends after exactly the computed wait and the oversleep; one whose request does not fit is never granted, however patient |
| `RateLimit.RunBudget` | src/ratelimit.rs:67-96 | over any interleaving, tokens left plus bytes granted are at most the initial tokens plus rate times elapsed time |
| `RateLimit.GrantedSinceCreation` | src/ratelimit.rs:41-49 | since creation at most the highest rate times the elapsed time is granted |
| `RateLimit.GrantedInWindow` | src/ratelimit.rs:67-96 | in any window at most the highest rate times the window plus one burst is granted |
| `RateLimit.GrantableIffFits` | src/ratelimit.rs:74-92 | a request can be granted in some run at a fixed rate if and only if it fits the burst |
| `RateLimit.EarliestGrant` | src/ratelimit.rs:88-92 | the computed wait is exact: a refused request that fits is granted from then on and not before |
| `RateLimit.FullChunkNeedsAChunkPerSecond` | src/ratelimit.rs:19-25 | a full encrypted chunk can be granted if and only if the rate is at least one sealed chunk per second |
| `Watchdog.GuardStall` | src/worker.rs:1631-1675 | gives up at the first poll that stalls, and at no other |
| `Watchdog.CalmBefore` | src/worker.rs:1639-1674 | no earlier poll stalled |
| `Watchdog.StallIsReal` | src/worker.rs:1639-1674 | giving up means the count stood still below the total over polls spanning at least the idle time, never less than five seconds, and four times that under a rate cap |
| `Watchdog.FreezeIsCaught` | src/worker.rs:1639-1674 | a transfer frozen below its total, tracked or no longer, is given up within 1.75 times the idle time, or 4.75 times under a rate cap |
| `PacedBody.ReportsAddUp` | src/storage/s3.rs:34-117 | over any interleaving of rebuilt bodies the reports add up to the highest offset published, never more than the part, and to the part once a body has published its end |
| `PacedBody.HighWater.PumpBody` | src/storage/s3.rs:34-66 | one body running alone sends the data in order in paced pieces, charges each before sending it, stops exactly at the first refused piece, and reports exactly the growth of the shared mark |
| `Nfs.LookupPathIs` | src/storage/nfs.rs:81-107 | an uncached walk finds exactly the node at the path |
| `Nfs.CacheAgreesWithLookup` | src/storage/nfs.rs:110-137 | every handle of a right cache is what a walk from the root returns |
| `Nfs.NfsBackend.ResolveDir` | src/storage/nfs.rs:110-137 | answers as the tree does for every path, with or without cached steps, through files too; caches exactly existing prefixes, all of them on success, and keeps the cache right |
| `Nfs.NfsBackend.PrepareParents` | src/storage/nfs.rs:495-544 | stops exactly at the first step that looks into a file or has an empty name; the tree then has every directory up to there and is otherwise unchanged, and the call succeeds exactly when nothing stopped it, with every step cached |
| `Nfs.NfsBackend.CreateFile` | src/storage/nfs.rs:162-203 | succeeds exactly in an existing directory when the name is neither empty nor a directory; adds at most that file |
| `Nfs.UnlinkAndCache` | src/storage/nfs.rs:632-635 | removing a node without evicting it keeps the cache right if and only if its path is not cached |
| `Nfs.NfsBackend.DeleteFile` | src/storage/nfs.rs:632-635 | exactly that file is gone, a missing one counts as deleted, a directory or an empty name is refused; the cache stays right if and only if the path was not cached |
| `Nfs.NfsBackend.ListDir` | src/storage/nfs.rs:303-363 | succeeds exactly on directories and lists exactly the children, each once |
| `NfsDelete.CollectOne` | src/storage/nfs.rs:614-626 | visiting one directory keeps every directory of the subtree collected or pending, parents first |
| `NfsDelete.DeepestIsEmpty` | src/storage/nfs.rs:627-631 | when a collected directory's turn comes everything inside it is already gone |
| `NfsDelete.Deleter.RemoveLast` | src/storage/nfs.rs:627-631 | the directory whose turn comes is removed by RMDIR while empty and evicted; only the export root is refused; the rest of the tree stays |
| `NfsDelete.Deleter.DeleteDir` | src/storage/nfs.rs:609-638 | on every path the delete terminates, succeeds exactly on directories other than the export root, removes exactly the subtree (the root stays, emptied, and ends in an error), keeps every cached handle that still exists, and keeps the cache right if and only if no file below was cached |
| `NfsRun.Perform` | src/storage/nfs.rs:81-638 | each operation does to the tree exactly what it means and keeps the cache right |
| `NfsRun.RunSession` | src/storage/nfs.rs:33-638 | over any sequence of operations from a fresh client, every cached handle is what LOOKUP returns and the tree is what the operations mean |

## Left out

- The user interface, settings files, keychain and connection form: presentation and I/O.
- The SFTP and SMB backends and the S3 SDK calls: wrappers over libraries that are not part of this model.
- Key derivation, AES-SIV, SHA-256, base32hex, JSON and the FNV fingerprint: abstract functions with only the facts listed under Hypotheses.
- Names longer than 65535 bytes, for which name encryption fails, and UTF-8: strings are sequences of characters, and a blank name is one of ASCII blanks.
- Sessions without a vault in `expand_folder` and `download_one`: the plain download accepts any end of stream, so there is nothing to prove without assuming it.
- The fallback to an empty manifest when loading one fails in `expand_folder`: the model's index always answers.
- Failures and aborts of `upload_part` and task panics: an upload here ends in success, cancellation, a seal error or the minimum-size error.
- Reconnecting, backoff and health checks between download attempts: waiting, with no effect on the disk; a cancel inside an attempt is an attempt that breaks off.
- `Progress.bytes` totals, speed smoothing, event throttling, toasts, `sanitize_rel` and the reconnect generation: easy or presentational.
- NFS reads, writes and commits, the default `get_range` and the channel reader: byte plumbing with no state worth an invariant.
- NFS paths as strings: they are lists of names here; `Paths.SplitJoin` relates the two.
- Rename.Backend.DefaultRenameDir: requires that the source prefix is not itself an object, as on the file-system backends that use it.
- Hub.FinishedOnceWithExactCounts: says that the event is sent or waiting to be sent once the last task reported; that the waiting send eventually happens is scheduling and is not modelled.
- Session.OpReadsIff: what directories read is not described after a folder move whose copies land in its own way, which needs a target that contains the source; objects are lost there (`NestedMoveLoses`), and coherence is still proved.
- FolderMove.FolderReadsAlikeIff: for targets that contain the source see `OpReadsAt`: the record of the folder is then edited inside the target.
- Session.RunReads: operations are atomic and none breaks midway (`RunCoherent` covers those); how their store phases interleave is the subject of `ManifestStore`, without folder operations.
