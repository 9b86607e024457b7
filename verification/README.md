# Verification of the SDFS client's dedupe engine

This project models the client-side dedupe engine of the SDFS client (`dedupe/Dedupe.go`) and the
upload, download and read paths that drive it (`api/Connection.go`), and proves what they promise.
`dafny verify dfyconfig.toml` checks everything.

## What is modelled

An open file is a write-back block cache. `Write` cuts a byte range at block boundaries and copies
each piece into a block-sized buffer held in a small LRU cache. Eviction lists the buffer in
`flushingBuffers` and queues a job; a later write can take the buffer back before the job runs. A
job makes up to four attempts to cut the buffer into fingers, ask the server which hashes it knows,
upload the rest and write a position map. `Sync` submits the cached buffers and waits.

The model has two layers for everything that changes state, and the upper is proved to do what the lower says.

* **Values.** `FileMachine` is one open file as a state machine. Its steps are as long as the
  source's locks: the `file.mu` section that locates a buffer, the `chunk.mu` section that copies,
  the part of a turn after it that raises `limit` outside `chunk.mu`, the parts of `Sync`, and the
  start and the end of an attempt under `buffer.mu`. One client thread's steps interleave with the
  workers' in any order; attempts end in success, a chunker error, an RPC error, or an RPC error
  after the server applied the map. `FileInvariants`, `NoLostBuffer`, `ViewRefinement`,
  `SequentialUpload`, `Quiescence`, `Retries` and `Recency` prove properties of all runs; `Traces` has concrete runs that
  lose data when one hypothesis is dropped; `StepForms`, `WritePieces` and `Histories` describe single steps and histories.
  `Registers` does the same for the engine's two registries, `RegistryKeys` for their keys, `Fingers` for the
  flush exchanges and `Storage` for the server and its messages.
* **Objects.** `Engine` has the buffers with their arrays and flags, the cache, `flushingBuffers`, the jobs
  and the file error as fields updated in place; `Registry` the engine's maps; `Flush` the mutable
  fingers and, in a class of their own, the engine's methods that talk to the server; `Transfer` the loops of `Upload` and `Download`. A file object
  records its history in a ghost field `trace`, and `Valid()` says that its state is what the machine makes of that history,
  so every theorem about runs applies to every file object. Between two of a client's lock sections
  the method `Workers` lets the workers take any steps; blocking on a lock or on a wait group runs the workers until it is free.

The libraries are oracles: an arbitrary hash (collision-free where content addressing is the point),
a compressor that may fail and that `decompress` undoes, protobuf marshalling likewise, and a
chunker that cuts its whole input into positive lengths. The server is an arbitrary function
from its state and a request to a new state and a reply. `CheckHashes`, `WriteChunks` and
`WriteSparseDataChunk` are proved for every such server; where the round trip needs a correct one, `Honest` says
what that means (its chunk store only grows, an index entry leads to data of that hash,
replies have full length, a position map goes to the file that the request's handle was given out for), and
`HonestServer.HypothesesCanBeMet` shows a server and a codec, marshalling included, that keep those promises and
answer every call. A file is `Answering` when the server does so and neither chunker nor marshaller fails; then no attempt fails.
The files of an engine share one server: what is done with one of them leaves the others as they were, which the
methods of `Registry` ensure for every other file.

## What came out

* One client thread alone does not make the engine safe. Each of these loses bytes, by a concrete run and by a lemma that
  says exactly when: a failed attempt on an evicted buffer; a new buffer for a block whose old job is outstanding; an
  eviction while a job that decided to skip the buffer has not yet deleted its entry; an attempt that starts between a
  copy beyond the limit and the raise of `limit` (one client suffices: after two Syncs a clean cached buffer is left with
  `Flushing` set); a write to a block that was dropped from memory, which starts from zeros instead of the server's bytes.
* A retry can undo a later write: after a failed attempt on an evicted buffer a new buffer may be made, written, evicted
  and acknowledged, and then the old buffer's next attempt puts the old bytes back, with no error anywhere.
* If neither a limit is read early nor a new buffer made over an outstanding job, nothing is lost even when attempts
  fail: the server has exactly what the newest buffer of a block holds, or that buffer is cached, or it has a job.
* Failed attempts on cached buffers, failures of the chunker, and starts and evictions that the exact conditions show to
  be harmless do not disturb the refinement of the flat file.
* A new buffer over an outstanding job need not be excluded separately when dropped blocks are not rewritten
  (`ViewRefinement.ExactIsCalm`), and neither needs to be for contiguous uploads, with Syncs anywhere among the writes
  (`SequentialUpload.UploadsAreCalm`).
* `Write` panics exactly when `length + offset % chunkSize` exceeds 2^31-1.
* `Sync` fails only for a file error or the timeout; the timeout strikes after the 18000th turn even if the list
  emptied during that turn, because it is not tested again. With a server that answers, a file never has an error.
* `CheckHashes` is a per-finger lookup exactly when equal hashes got equal locations.
* `getFileGuid` collides on negative volumes only: `"a"` on volume -2 and `"a-"` on volume 2.
* `CloseFile` deletes by plain file name. It always leaves the file it closes open without handles, and it drops another
  file's entry exactly when that plain name is a registered key.
* `SyncFile` on a file without handles returns nil without waiting, `Sync` waits.
* `Upload` ignores the result of the `Release` that syncs the file, and a failed read ends it like the end of the file.
* A chunker error leaves the flushing entry, the three RPC errors delete it.

## Model

| member | source | states |
|---|---|---|
| FileMachine.BlockOfUnique | dedupe/Dedupe.go:670-674 | getOffset gives the only multiple of the chunk size within one chunk below a position |
| FileInvariants.StepKeepsInv | dedupe/Dedupe.go:595-787 | every step keeps: limit in [0, chunkSize] with zeros above it, one cached buffer per block, the cache within its size, one attempt per buffer, at most four attempts per job, a job for every flushing entry unless the file has an error |
| NoLostBuffer.NoLostBuffer | dedupe/Dedupe.go:613-665 | in every reachable state without a file error, even with failed attempts, rewritten blocks and several jobs on one buffer, the server has exactly the bytes of the newest buffer of each block, or that buffer is cached, or is marked Flushing and has a job that will send it |
| NoLostBuffer.UnsentIsKept | dedupe/Dedupe.go:613-665 | even with new buffers over outstanding jobs, no buffer is given up before the server acknowledged what it holds |
| NoLostBuffer.SyncSendsTheCache | dedupe/Dedupe.go:238-290 | when Sync returns nil the server has exactly what the newest buffer of each block holds, or that buffer was evicted and still has its job |
| NoLostBuffer.EarlyStartLosesIff | dedupe/Dedupe.go:661-664 | an attempt started between the copy and the raise of the limit leaves the buffer clean; the server has its bytes if and only if the piece does not reach beyond the old limit |
| NoLostBuffer.OlderJobOverwritesIff | dedupe/Dedupe.go:712-783 | the next attempt of an older buffer's job replaces a newer buffer's bytes on the server if and only if the older one is dirty, marked Flushing and has other bytes |
| NoLostBuffer.LimitReadTwice | dedupe/Dedupe.go:737-774 | in a settled run the limit read again for the position map is the one that was sent |
| ViewRefinement.ViewOfCalmRuns | dedupe/Dedupe.go:595-668 | in every calm run a byte of the file is what the last write made it or what the server had, except that a block that got a new buffer was reset to zeros: evictions, revivals, flushes, harmless failures and Syncs never show |
| ViewRefinement.ViewRefinesFlatFile | dedupe/Dedupe.go:595-668 | when no dropped block is rewritten, the view is the flat file: the old bytes overwritten by the writes in order |
| ViewRefinement.StepContent | dedupe/Dedupe.go:608-665 | one calm step changes the view of a block only if it is a write to that block, and then to exactly the piece |
| ViewRefinement.ExactIsCalm | dedupe/Dedupe.go:638-642 | if no dropped block is rewritten there is no stale job either |
| ViewRefinement.RewriteExactIff | dedupe/Dedupe.go:639-642 | a write that makes a buffer for a block the server has leaves the rest of the block alone if and only if the server's block is zero there |
| ViewRefinement.EvictionUnderTestLosesIff | dedupe/Dedupe.go:734-786 | a write that evicts a buffer which a job has decided to skip, and then that job's end, change the block's view if and only if the buffer was dirty and the server has other bytes |
| ViewRefinement.StaleJobLosesIff | dedupe/Dedupe.go:734-786 | the end of a stale job changes its block's view if and only if the live buffer is not cached and what the job leaves on the server differs from it |
| ViewRefinement.FailedAttemptLosesIff | dedupe/Dedupe.go:761-779 | a failed attempt loses its buffer's bytes if and only if the buffer is not cached and the server's block differs |
| ViewRefinement.SyncReturnsOnlyWhenClean | dedupe/Dedupe.go:271-288 | where Sync may return nil in a calm state, every buffer is clean and the server's blocks alone are the view |
| ViewRefinement.SyncSoundness | dedupe/Dedupe.go:238-290 | after every calm run, Sync returns nil only with no dirty buffer, no flushing entry and the server alone equal to the view |
| ViewRefinement.SyncedFileIsTheFlatFile | dedupe/Dedupe.go:238-290 | after every exact run in which Sync returns nil, the server alone holds the flat file |
| Traces.AfterAFailedAttempt | dedupe/Dedupe.go:761-765 | a run with one failed attempt in which Sync may return nil while the server lacks an evicted byte |
| Traces.AfterAStaleJob | dedupe/Dedupe.go:784-786 | evict, revive, evict, flush, new buffer, evict: the second job deletes the new buffer's entry, and Sync may return nil with the old byte on the server |
| Traces.AfterAnEvictionUnderTest | dedupe/Dedupe.go:734-786 | a job that skipped a revived buffer deletes the entry of its next eviction, and Sync may return nil without the byte |
| Traces.AfterAnUnsettledLimit | dedupe/Dedupe.go:654-664 | an old job started between copy and raise marks the buffer clean with the old limit sent, and the eviction's own job skips it: the newest buffer of its block is not cached, no job is left, Sync may return nil, the byte is not on the server |
| Traces.AfterAnOlderRetry | dedupe/Dedupe.go:712-786 | a failed attempt, a new buffer written, evicted and acknowledged, then the older buffer's retry: the newest buffer is not cached, no job is left, Sync may return nil, the server has the older byte |
| Traces.AfterARewrite | dedupe/Dedupe.go:638-642 | rewriting a dropped block resets its other bytes to zero |
| SequentialUpload.UploadsAreCalm | dedupe/Dedupe.go:238-290 | every run of contiguous ascending writes, with Syncs anywhere among them and without a failed attempt, is exact, whatever the schedule: no stale job, no dropped block rewritten, no buffer evicted under test, no limit read early |
| SequentialUpload.UploadIsExact | dedupe/Dedupe.go:608-665 | at every nil return of a Sync among such writes to a new file, the server holds exactly the bytes written so far, block by block |
| Quiescence.WorkerStepLowersWork | dedupe/Dedupe.go:702-787 | every worker step lowers a measure of the outstanding jobs and their remaining attempts |
| Quiescence.WorkersRunDry | dedupe/Dedupe.go:702-787 | without the client the workers take at most that many steps |
| Quiescence.WorkersProgress | dedupe/Dedupe.go:702-787 | while a job is outstanding some worker can take a step |
| Quiescence.QuietMeansCleared | dedupe/Dedupe.go:271-283 | when no job is outstanding, flushingBuffers is empty or the file has an error |
| Quiescence.ErrorSticks | dedupe/Dedupe.go:708-733 | over any run a file error stays, no Sync begins or returns nil, and every block without an attempt under way when the error struck stays on the server as it was |
| Retries.RetriesAreIdempotent | dedupe/Dedupe.go:712-717 | any failed attempts right before a successful one leave the same state as one successful attempt |
| Retries.RetriesLeaveNoTrace | dedupe/Dedupe.go:712-717 | with the client and other workers active between the attempts, a run up to the success of a job that otherwise leaves its block alone ends in the same state as the run without the failed attempts |
| Retries.LastFailureIsTheFilesError | dedupe/Dedupe.go:712-721 | a failed attempt sets the file error and ends the job exactly if it was the fourth |
| Quiescence.AtMostFourAttempts | dedupe/Dedupe.go:712-717 | over any run, with any failures, no job makes more than four attempts |
| Quiescence.FailedIffFourFailures | dedupe/Dedupe.go:708-721 | over any run a file has an error if and only if some job failed four times; without one a job is outstanding exactly until it succeeds, with four attempts less its failures left |
| Recency.CacheIsMostRecent | dedupe/Dedupe.go:213-221 | over any run every buffer that is not cached was last used (added, added again, or fetched by Sync) before every cached one, and nothing is evicted while there is room |
| RegistryKeys.GuidInjective | dedupe/Dedupe.go:126-128 | getGUID is injective over all pairs of integers |
| RegistryKeys.FileGuidCollides | dedupe/Dedupe.go:130-132 | two file keys are equal if and only if name and volume are, or one volume is the other negated and the names differ by a trailing dash |
| RegistryKeys.FileGuidSeparatesVolumes | dedupe/Dedupe.go:130-132 | file keys keep two volumes' files apart exactly when the volumes are the same or not each other's negation |
| Registers.HandleLeadsToItsFile | dedupe/Dedupe.go:198-236 | when the registries agree, a handle leads to a file exactly when the file is open under its own key, on that volume, and lists the handle |
| Registers.RegistriesAgree | dedupe/Dedupe.go:198-322 | the registries agree over every run of Open and Close with handles that are not in use for another file and volumes that are not negative |
| Registers.OpenAgreesIff | dedupe/Dedupe.go:198-236 | Open keeps the agreement exactly when its handle is not in use for another file |
| Registers.CloseAgrees | dedupe/Dedupe.go:292-322 | Close keeps the agreement, whatever its Sync returned |
| Registers.CloseUndoesOpen | dedupe/Dedupe.go:292-322 | closing a new handle gives back the registries from before its opening |
| Registers.OpenLeads | dedupe/Dedupe.go:198-236 | after Open the handle leads to the file that is open under the name; every other handle leads where it led and every other name is open or not as before |
| Registers.CloseLeads | dedupe/Dedupe.go:292-322 | Close takes out its handle alone, and a file stays open exactly as long as another handle leads to it |
| Registers.CloseFileLeads | dedupe/Dedupe.go:324-338 | CloseFile takes out exactly the keys that lead to its file; all others lead where they led; of the open files only one under the plain name goes |
| Registers.CloseFileBreaksAgreement | dedupe/Dedupe.go:324-338 | CloseFile on an open file always leaves the file open with handles that lead nowhere |
| Registers.CloseFileDropsAnotherIff | dedupe/Dedupe.go:324-338 | CloseFile of an open file takes another file out of openFiles if and only if its plain name is a registered key |
| Registers.CloseFileDropsAnother | dedupe/Dedupe.go:324-338 | two allowed Opens of a new engine, "a" on volume 2 and "a-2" on volume 7, lead to registries that agree and in which CloseFile of "a-2" drops "a" and keeps its own entry |
| Registry.DedupeEngine.Open | dedupe/Dedupe.go:198-236 | Open makes the registries what OpenNext says, with a new usable file, holding what the service has for that file, only if none was open; every other file stays usable; it fails exactly for a new file when the cache size is not positive, and then registers nothing |
| Registry.DedupeEngine.DistinctFiles | dedupe/Dedupe.go:203-232 | when the registries agree, different open files are different files of the service |
| Registry.DedupeEngine.PoolTurn | dedupe/Dedupe.go:213-221 | the pool's work on one file leaves every other file usable |
| Registry.DedupeEngine.Sync | dedupe/Dedupe.go:238-290 | an unregistered handle gives nil; otherwise the file's history goes on by one Sync that returned nil exactly if this does (or, without handles, by workers only); nil means no file error, no flushing entry and, after an exact run, the flat file on the server; not nil means a file error or an entry still listed after the jobs were done; a file error from before is returned and nothing happens; every other file stays usable |
| Registry.DedupeEngine.SyncFile | dedupe/Dedupe.go:354-409 | the same for a file found by name; without handles it does nothing and gives nil exactly if there is no error |
| Registry.DedupeEngine.Close | dedupe/Dedupe.go:292-322 | Close makes the registries what CloseNext says even when its Sync fails; the file's history went on by exactly one Sync, and Close returns nil exactly if that did; then, after an exact run, the server has the flat file; it reports the file error exactly if there is one; every other file stays usable |
| Registry.DedupeEngine.HandleIsListed | dedupe/Dedupe.go:231-234 | when the registries agree, a handle's file has handles, so Close submits the cache |
| Registry.DedupeEngine.CloseFile | dedupe/Dedupe.go:324-352 | CloseFile does what SyncFile does, with the same result but for a file error, which it reports; from agreeing registries no key leads to the file any more and every other key leads where it led; every other file stays usable |
| Registry.DedupeEngine.Write | dedupe/Dedupe.go:595-607 | an unknown handle is an error, a file error from before is returned and nothing happens, otherwise the file's history goes on by exactly the pieces of the range and the result is nil, or it is the int32 panic; every other file stays usable |
| Storage.ReadPairsStable | sdfs/Storage.pb.go:784-797 | reading a position map in increasing position gives the same bytes after the chunk store has grown |
| Storage.GrowthKeepsBlocks | dedupe/Dedupe.go:761-779 | an attempt's exchanges that only add chunks leave what every block of every file reads as it was |
| Storage.ReplacedBlock | sdfs/Storage.pb.go:887-900 | a new position map changes what is read of its own file at its own offset only |
| Fingers.LookupIsPerFingerIffConsistent | dedupe/Dedupe.go:444-463 | every finger ends with its own entry of the reply if and only if equal hashes got equal locations |
| Fingers.FlagMeansKnown | dedupe/Dedupe.go:451-459 | under consistent locations a finger is flagged a duplicate exactly when its location is not -1 |
| Fingers.InconsistentReply | dedupe/Dedupe.go:451-459 | two fingers of one hash, answered loc and -1, both end at -1 and flagged as duplicates |
| Fingers.CompressionKeepsContent | dedupe/Dedupe.go:474-494 | whichever branch builds a chunk entry, decoding it gives the finger's data, and the batch's content does not depend on the Compress setting |
| Fingers.CompressedIff | dedupe/Dedupe.go:476-494 | a chunk goes out compressed exactly when that is on, it has more than 10 bytes, and compressing works and does not make it longer |
| Fingers.Unflagged | dedupe/Dedupe.go:471-500 | hl is strictly increasing and lists only unflagged fingers |
| Fingers.RankOf | dedupe/Dedupe.go:471-500 | every unflagged finger is in hl, at the place that counts the unflagged ones before it |
| Fingers.RecordsAlign | dedupe/Dedupe.go:506-520 | record k lands on the finger whose data was chunk k: location, flag (not inserted) and compressed length are the record's; fingers that were flagged are untouched |
| Fingers.FlaggedIff | dedupe/Dedupe.go:444-515 | after both exchanges a finger is flagged exactly if its hash was known or its record says it was not inserted |
| Fingers.BatchesLocateEveryFinger | dedupe/Dedupe.go:411-523 | after CheckHashes and a successful WriteChunks every finger has a location other than -1 that holds its own data |
| Fingers.RequestKeepsMap | dedupe/Dedupe.go:549-578 | packed or plain, the request decodes to the position map that was built and names the handle, the offset and the volume |
| Fingers.PackedIff | dedupe/Dedupe.go:549-578 | the map is packed exactly when compression is on and works, and not sent exactly when it cannot be marshalled |
| Fingers.StartsAscend | dedupe/Dedupe.go:740-754 | the fingers partition the buffer: the first starts at 0, each starts where the one before ends, the last ends the buffer |
| Fingers.FingerHolds | dedupe/Dedupe.go:740-754 | each finger holds the buffer's bytes from its start on, as many as its length says |
| Fingers.EntriesTile | dedupe/Dedupe.go:525-540 | the starts are distinct, so the map has one entry per finger and it is that finger's |
| Fingers.LengthsSum | dedupe/Dedupe.go:528-547 | the lengths of duplicates and of inserted fingers sum to the length of the buffer |
| Fingers.DoopIsExact | dedupe/Dedupe.go:541-547 | the int32 sum Doop does not overflow and with the inserted lengths makes up the whole length |
| Fingers.LenIsExactIff | dedupe/Dedupe.go:528-547 | Doop and the inserted lengths sum to the position map's own Len if and only if the limit read again at the end is the length of what was cut |
| Fingers.EntriesDescribe | dedupe/Dedupe.go:530-540 | each entry of the map is true of the buffer: the bytes at its position, as many as Len and Nlen say, are stored at its location and have its hash, and exactly one of Dup and Inserted is set |
| Fingers.MapCounts | dedupe/Dedupe.go:528-547 | of the map that is sent: an entry's Dup is set exactly for a flagged finger, the Len of the Dup entries sum to Doop, the Len of the Inserted entries to the rest of the buffer's length, and Fpos is the request's location |
| Fingers.CompressedLengthIsReported | dedupe/Dedupe.go:512-545 | the map's CompressedLength is the int32 sum of what the records reported, each counted once |
| Fingers.ReadsBack | dedupe/Dedupe.go:736-787 | reading the position map of fingers that are in place gives back the buffer they tile |
| Fingers.MapWritten | dedupe/Dedupe.go:525-593 | writing that map makes the server return the buffer for its block of the handle's file and changes no other block and no other file; after an error it did either that or nothing |
| Flush.AfterCheck | dedupe/Dedupe.go:411-466 | on a correct server the fingers CheckHashes flagged are stored already, and no block of any file changes |
| Flush.AfterWrite | dedupe/Dedupe.go:468-523 | when WriteChunks succeeds all fingers are stored, and no block of any file changes in any case |
| Flush.Deduper.CheckHashes | dedupe/Dedupe.go:411-466 | for any reply: an error changes no finger, locations are assigned by group, a reply that is too long panics, and "unable to find" never occurs |
| Flush.Deduper.WriteChunks | dedupe/Dedupe.go:468-523 | for any reply: records go to the unflagged fingers in order, up to the first that has no location for data, or panic when there are too many |
| Flush.Deduper.WriteSparseDataChunk | dedupe/Dedupe.go:525-593 | the request sent is the one for the map of all fingers with the int32 sums; only a marshalling error prevents the call |
| Flush.Deduper.Cut | dedupe/Dedupe.go:736-754 | for any cuts the fingers are the chunker's pieces of buffer[:limit], end to end, or the chunker's error is returned |
| Flush.Deduper.Send | dedupe/Dedupe.go:761-780 | server and result are those of the three exchanges, up to the first that fails; a successful exchange makes the server return the buffer for its block; a failed one leaves every block as it was or as the success does, and never changes stored data; other files never change |
| Flush.SendSucceedsIff | dedupe/Dedupe.go:761-780 | an attempt's exchanges succeed if and only if CheckHashes does (when there are fingers), WriteChunks does with a location for every chunk (when some are new), the map can be marshalled, and its call does |
| Flush.AnsweredIsSent | dedupe/Dedupe.go:761-780 | on a server that answers every call they always succeed |
| Engine.DedupeFile.constructor | dedupe/Dedupe.go:204-228 | a new file is the machine's opened file over the blocks the server has |
| Engine.DedupeFile.CacheAdd | dedupe/Dedupe.go:213-221 | adding to the cache, with the eviction callback, is the machine's CacheAdd |
| Engine.DedupeFile.FindBuffer | dedupe/Dedupe.go:618-645 | the first locked section of Write finds, takes back or makes the block's buffer: the machine's Locate |
| Engine.DedupeFile.CopyPiece | dedupe/Dedupe.go:647-654 | the second is its Copy: the piece is in the array, the buffer dirty and its handle the one written through |
| Engine.DedupeFile.AddAgain | dedupe/Dedupe.go:657-664 | the rest of the turn is its Raise |
| Engine.DedupeFile.NextPiece | dedupe/Dedupe.go:609-616 | the int32 arithmetic of a turn gives a piece within its block, or an end that wrapped below zero |
| Engine.DedupeFile.Write | dedupe/Dedupe.go:595-668 | with no file error Write makes exactly the pieces of [offset, offset + length) and returns nil, or panics exactly when length + offset % chunkSize exceeds 2^31-1; with one it does nothing |
| Engine.DedupeFile.StartAttempt | dedupe/Dedupe.go:729-734 | taking buffer.mu and testing the flags is the machine's Start |
| Engine.DedupeFile.RunDedupe | dedupe/Dedupe.go:734-787 | an attempt's effect on flags, flushing list and blocks is that of one of the machine's four outcomes; its result is the chunker's error or that of its exchanges, and success where the server answers and the chunker works |
| Engine.DedupeFile.FinishAttempt | dedupe/Dedupe.go:702-787 | with Do's counting it is the machine's Finish; after the last attempt the file's error is that attempt's |
| Engine.DedupeFile.AwaitFlushing | dedupe/Dedupe.go:271-284 | the wait ends with an empty list, by the first turn that brings an error, or after 18000 turns with an entry listed at the last test |
| Engine.DedupeFile.Sync | dedupe/Dedupe.go:238-290 | Sync's history is its begin, submissions and worker steps, ending in a nil return exactly if it returns nil, or, without handles, worker steps only; nil means an empty flushing list and no error; not nil means an error, or an entry that was listed after Sync's jobs were done; a file error from before is returned at once; other files of the service do not change |
| WritePieces.PiecesTile | dedupe/Dedupe.go:608-665 | Write's pieces partition the range in order, each inside one aligned block |
| WritePieces.WriteReplays | dedupe/Dedupe.go:595-668 | a history with Write's pieces changes the flat file on [offset, offset + length) to the given bytes and nowhere else |
| Histories.OverflowsAtFirst | dedupe/Dedupe.go:609-616 | only the first piece's end can leave the int32 range |
| Transfer.WrittenIsReadBack | dedupe/Dedupe.go:238-290 | after any earlier history, a Write, and a Sync that returned nil, all on an exact schedule, the file's blocks on the server have the bytes written, and elsewhere what the earlier writes made of the file |
| Transfer.Read | api/Connection.go:1377-1400 | Read syncs first, fails only as Sync does, and then returns the range of the flat file if the service answers from the file's blocks and the history was exact |
| Transfer.AppendedIsReadBack | test/Dedupe_test.go:47-61 | contiguous writes to a new file and reads in any order: as long as no attempt fails each read returns the bytes written there, whatever the schedule |
| Transfer.Upload | api/Connection.go:1769-1802 | Upload's loop makes contiguous writes of what it read, and its final offset is the source's length exactly when no read failed; it fails only with the file's error or, for blocks whose end may not be an int32, by the panic |
| Transfer.UploadedExactly | api/Connection.go:1769-1809 | contiguous writes to a new file, Syncs anywhere among them, and a Sync that returned nil, without a failed attempt, leave exactly the source on the server |
| Transfer.UploadAndRelease | api/Connection.go:1769-1809 | the same of the upload method and the Release after it; after a failed write it releases too; its Sync failed only for a file error or an entry that stayed, and with a server that answers there is no file error |
| Transfer.AnsweringNeverFails | dedupe/Dedupe.go:712-721 | with a server that answers, and a chunker and marshaller that work, no attempt of any history fails and the file has no error |
| Transfer.Download | api/Connection.go:1857-1887 | for an exact server the result is the length and the output the content; in general the requests cover [0, length) in order, all but the last of the block size, the loop ends with the length as result and the replies one after the other; the first error stops it |
| Transfer.RepliesAreTheContent | api/Connection.go:1863-1884 | an exact server's replies put together are the content, however the range is cut |
| Transfer.UploadThenDownload | api/Connection.go:1741-1887 | upload, release and download give back the source, whatever the two block sizes |

## Left out

* Several client threads on one file: `limit` and the re-add to the cache are not protected against them, and the refinement is false there. The test of `file.err` at the entry of `Sync` and the taking of `file.mu` are one step.
* Taking a buffer out of `flushingBuffers` and clearing its flags is one step of the client, although a worker that tests the flags holds `buffer.mu` and not `file.mu`; likewise `Flushing` and the list are set together on eviction.
- NoLostBuffer.NoLostBuffer: also assumes that no attempt reads the limit early and that no new buffer is made over an outstanding job; it is false otherwise, by Traces.AfterAnUnsettledLimit and Traces.AfterAnOlderRetry, and NoLostBuffer.EarlyStartLosesIff and NoLostBuffer.OlderJobOverwritesIff say when exactly.
- ViewRefinement.ViewOfCalmRuns: assumes a calm schedule (no failed attempt on an evicted buffer, no stale job, no dirty buffer evicted under test, no limit read early), none of which the source enforces; module Traces has a run for each.
- Retries.RetriesLeaveNoTrace: assumes that no Sync returns nil between the attempts; a failed attempt can let one return too early, by Traces.AfterAFailedAttempt.
- Flush.Deduper.Send: assumes that no other call writes position maps while the attempt runs (its map is written at one instant); chunks may be added by others at any time.
- Engine.DedupeFile.Write: offsets are integers without the int64 wrap at 2^63, and the buffer covers the length. A byte slice's length stands for its capacity.
- Registry.DedupeEngine.PoolTurn: while one file's method runs, only that file's jobs do; other files' jobs take their turns between calls. Jobs that are outstanding when the last handle is closed are not run later.
* Which file a handle was given out for does not change over time, and all volumes share one chunk store.
* Fairness of the pool: how far the workers get between two of a client's sections, or in one turn of the wait, is not promised, not even that they move; waiting for a lock or for Sync's own jobs is, and `Quiescence` bounds it.
* The 10 ms polling in `Sync` and `SyncFile` is any number of worker steps; its count of 18000 is kept in `AwaitFlushing`.
- Engine.DedupeFile.Sync: says that an entry was listed at one test of the wait, not at each of the 18000, because turns in which no worker moves leave nothing in the history.
* The LRU cache is a recency list, the worker pool a list of jobs that any worker may take; the hashicorp LRU, rabin, LZ4, hashes, base64 and protobuf are libraries. Hashes are map keys directly, not by their base64 text.
* A chunker error that comes with a cut of length zero is taken for the end of the input by the source; the chunker's contract excludes it before the end.
* The paths around the upload loop (temporary name, stat, rename, unlink), compressed read replies, writes and reads without dedupe, `StreamWrite` and the streaming part of `Release`.
* gRPC, credentials, events, the command line tool, logging, and the generated message code.
