# SlotSync: the sync protocol, verified

SlotSync moves whole GameCube memory-card images between consoles, PCs and a hub
over a lossy UDP protocol. It promises that nothing commits unless the whole-card
digest matches, that a transfer is decided once, and that a save is never silently
overwritten. This project models the code those promises rest on and proves them,
for every input, every run and every interleaving named below.

How the modules build on each other:

- `Bytes`, `Bitmaps`: bits, big-endian fields, chunk bitmaps and their windows.
- `Staging`, `Store`, `Server`, `Attempts`, `Listener`: the server. Values and step
  functions say what each handler means; `Staging.Buffer`, `Store.Database` and
  `Listener.Protocol` are the objects that update themselves in place, proved equal
  to those functions; `Attempts` holds the theorems over whole runs.
- `ServerAsync`: the same handlers split where they await: what survives every
  interleaving, the exact conditions for the rest, and runs that show them needed.
- `Fingerprint`, `Delta`: the fingerprint scan and the delta pipeline.
- `Push`, `PushClient`: the console's side of a push against the listener, over a
  network that loses, delays, reorders and repeats, with the replies to whatever else
  the console asked arriving at the same socket. `Push` says what a push does as
  functions and holds the theorems; `PushClient` is the loops that do it.
- `Pull`: the windowed pull, and its composition with a store that keeps moving.
- `FpStore`, `Kernel`: the fingerprint file, its two readers, and when the in-game
  sync may trust a table.
- `Policy`: whole-system runs of one store with any number of clients.
- `Sha256`, `Wire`, `Memcard`, `NonceCache`, `RateLimit`, `StateFile`: the streaming
  digest and signature, the datagram, card structure, replay window, rate limit, and
  the state file shared by two programs.

SHA-256's digest of an image and the card parser's verdict are parameters
(`Store.Config`); so is the block function in `Sha256`. Results are stated as "digest
equal", and a theorem that speaks of bytes says so in a hypothesis that the digest
does not collide. Clocks, nonces and everything the network does are inputs.

Where the code and its own documentation part ways, the model follows the code:

- `wii/core/fingerprint.h:36-39` says `ss_fp_store_find` checks version and size; it
  checks neither, its callers do.
- `wii/core/client.c:685-688` argues that an authenticated, offset-checked chunk needs
  no digest over the reassembled image; `Pull.PullWhileHeadMoves` is the case it misses.
- `server/src/slotsync/protocol.py:241-246` gives replies the request's identity so
  that a client can match them; the console client does not. Any ACK at the wait for a
  verdict is taken for the commit (`Push.ResentBeginReadsAsCommit`,
  `Push.StrayAckReadsAsCommit`). The transfer id does not tell them apart either: the
  launcher and the kernel name their transfers parent + 1, the number an honest commit
  carries. `Push.SentOnceIsTheCommit` is the condition a caller can check.
- `server/src/slotsync/udp.py:159-172` promises one verdict per transfer; that holds for
  handlers run one at a time (`Attempts.AttemptFromBegin`), and across the awaits exactly
  as far as `ServerAsync.AsyncVerdictsAgree` says.
- `server/src/slotsync/udp.py:420-430` caps the buffers; the cap is checked before a
  seed is read and not again after (`ServerAsync.CapIsNotKept`).

## Model

| member | source | states |
|---|---|---|
| `Staging.Buffer.StoreChunk` | server/src/slotsync/udp.py:121-136 | A chunk past the end, by sequence or by bytes, is refused and changes nothing; otherwise its bytes land at its offset, it is marked received, and both counters still equal what the bitmaps say |
| `Staging.Buffer.Declare` | server/src/slotsync/udp.py:105-119 | Declaring a chunk twice changes nothing; declaring one that already arrived leaves `outstanding` alone; the counters stay equal to the set sizes |
| `Staging.Buffer.Complete` | server/src/slotsync/udp.py:99-103 | The counter test answers "is nothing missing?" exactly, for deltas and whole cards alike |
| `Staging.Buffer.Missing` | server/src/slotsync/udp.py:138-155 | Lists in ascending order exactly the chunks still owed |
| `Staging.DeliveredIs` | server/src/slotsync/udp.py:105-136 | Closed form of any delivery sequence: bytes are the seed overlaid with the delivered chunks, the bitmaps are the delivered sets |
| `Staging.StagingIsConfluent` | server/src/slotsync/udp.py:66-155 | Honest deliveries in any order, with any repetition, leave the same buffer: only the set of chunks and declarations matters |
| `Staging.CompleteHolds` | server/src/slotsync/udp.py:99-103 | What a complete buffer holds: the whole image on a whole-card push; on a delta everything declared arrived and the image overlays the seed |
| `Bitmaps.MarkInPlace` | wii/core/protocol.c:209-221 | Setting a bit names exactly one more chunk, or nothing when it lies outside the bitmap |
| `Bitmaps.PackBitmap` | server/src/slotsync/protocol.py:270-278 | The packed bytes name exactly the given indices that lie in the range |
| `Bitmaps.UnpackBitmap` | server/src/slotsync/protocol.py:280-290 | Recovers, in ascending order and without repetition, exactly the chunks a bitmap names |
| `Bitmaps.PackUndoesMarked` | server/src/slotsync/protocol.py:270-290 | Packing what a bitmap names gives the same bytes back |
| `Bitmaps.BitmapWindows` | server/src/slotsync/protocol.py:292-309 | The windows name exactly the indices, however those were given: one full-sized 8184-chunk window per stretch that holds anything, in order |
| `Bitmaps.WindowsBelowName` | server/src/slotsync/protocol.py:292-309 | The windows together name exactly the indices, each is aligned, full-sized and not empty |
| `Bitmaps.DecodeGaps` | wii/core/client.c:426-440 | The C decode loop adds exactly what one gap datagram names, modulo its 32-bit index arithmetic, below the end of the card |
| `Store.NormaliseIsStable` | server/src/slotsync/store.py:125-153 | A canonical card name is its own canonical form |
| `Store.PushRule` | server/src/slotsync/store.py:269-367 | A push creates a version if and only if the image is valid, fits, names head as its parent and is not already head; every other outcome leaves the database untouched |
| `Store.PushCreates` | server/src/slotsync/store.py:340-367 | A created version is head + 1, was not there before, carries the parent and digest, and keeps the lineage |
| `Store.PushRecords` | server/src/slotsync/store.py:316-367 | Whatever version a push is answered with is on record under the pushed digest |
| `Store.PushedReadsBack` | server/src/slotsync/store.py:227-233 | With no digest collision, what was pushed is what is read back |
| `Store.RollbackRule` | server/src/slotsync/store.py:369-427 | Rollback fails exactly for versions outside 1..head; otherwise head ends on the target's digest, by appending, unless it was already there |
| `Store.DoKeeps` | server/src/slotsync/store.py:269-427 | Every operation keeps versions 1..head with parent v-1 and every blob present, and never changes history |
| `Store.RunsKeepLineage` | server/src/slotsync/store.py:269-427 | So does every run of pushes and rollbacks |
| `Store.OnePushPerParent` | server/src/slotsync/store.py:316-354 | Over any run at most one push is ever created on a given parent of a card |
| `Store.Database.Push` | server/src/slotsync/store.py:269-367 | The tables, the blobs and the answer after a push are the specified ones, error cases included |
| `Store.Database.Rollback` | server/src/slotsync/store.py:369-427 | The same for a rollback |
| `Server.StepKeeps` | server/src/slotsync/udp.py:411-685 | Every handler, the sweep and every web operation keep: lineage, staging and settled keys disjoint, at most `max_staging` buffers, each valid and within the size limit; history only grows |
| `Server.RunKeeps` | server/src/slotsync/udp.py:411-685 | So does every run |
| `Attempts.DecisionIsTrue` | server/src/slotsync/udp.py:606-685 | A deciding PUSH_END gives one verdict, drops the buffer, remembers the verdict, and changes the store only to record the digest that was asked for |
| `Attempts.StepOfAttempt` | server/src/slotsync/udp.py:556-685 | One step of an open attempt gives at most one fresh verdict and repeats a remembered one unchanged |
| `Attempts.AttemptIsDecidedOnce` | server/src/slotsync/udp.py:556-685 | Over any run without a re-accepted PUSH_BEGIN and with one digest: all verdicts agree, every ACK names a version recorded with that digest, at most one version is created |
| `Attempts.AttemptFromBegin` | server/src/slotsync/udp.py:411-685 | The same from any reachable state, from an accepted PUSH_BEGIN on, whatever is lost, repeated or reordered |
| `Attempts.NothingVanishes` | server/src/slotsync/udp.py:411-840 | Buffers and verdicts come and go only for a stated reason: a decision, a new PUSH_BEGIN, or silence beyond the time-to-live; a buffer changes only by its own key's datagrams |
| `Attempts.ServerRunsAreStoreRuns` | server/src/slotsync/udp.py:619-627 | UDP, HTTP and rollback feed one lineage: a run of the server is a run of store operations |
| `Attempts.OnePushPerParentOnServer` | server/src/slotsync/store.py:316-354 | From an empty server, over any run, at most one push from either side is created on a given parent |
| `Listener.Protocol.Handle` | server/src/slotsync/udp.py:369-397 | The object's handlers, updating their tables and buffers in place, do exactly what the run model's step says, replies included |
| `Listener.Protocol.OnPushBegin` | server/src/slotsync/udp.py:411-476 | Size, cap and seed checks in order; a fresh buffer replaces any the key had and the remembered verdict goes |
| `Listener.Protocol.SeedFromParent` | server/src/slotsync/udp.py:478-518 | Version 0, an unknown version, a missing blob or a changed size cannot seed |
| `Listener.Protocol.OnPushDelta` | server/src/slotsync/udp.py:520-544 | Declarations stop at the first index past the end, and what came before it stays declared |
| `Listener.Protocol.OnPushEnd` | server/src/slotsync/udp.py:556-655 | Replay, gap report, digest check or store verdict, and the settled state each leaves |
| `Listener.Protocol.NackMissing` | server/src/slotsync/udp.py:781-796 | The gap report is one reply per non-empty window of the missing set |
| `Listener.Protocol.SweepExpired` | server/src/slotsync/udp.py:809-840 | Exactly the buffers and verdicts older than the time-to-live go |
| `ServerAsync.TurnKeeps` | server/src/slotsync/udp.py:411-655 | With the handlers split at their awaits, anything in between and one digest per key: staging and settled keys stay disjoint, and every ACK to a PUSH_END, fresh or replayed, names a version recorded with the digest asked for |
| `ServerAsync.TurnsKeep` | server/src/slotsync/udp.py:411-655 | So over every interleaving |
| `ServerAsync.CommitMatchesDigest` | server/src/slotsync/udp.py:606-627 | Over every interleaving from an idle server, each store operation is the web side's or pushes an image whose digest some PUSH_END of its card's key carried |
| `ServerAsync.TurnsAreOps` | server/src/slotsync/udp.py:619-627 | However handlers interleave, the store moves only by whole store operations |
| `ServerAsync.OnePushPerParentAsync` | server/src/slotsync/store.py:316-354 | So at most one push is created on a given parent even then |
| `ServerAsync.OverrunIsBounded` | server/src/slotsync/udp.py:420-430 | With at most n seeds ever being read at once, buffers never exceed `max_staging` + n |
| `ServerAsync.CapHolds` | server/src/slotsync/udp.py:420-430 | The cap holds on every run in which each PUSH_BEGIN let in for a new key leaves room for the buffers and the seeds in flight together |
| `ServerAsync.OverbookingShows` | server/src/slotsync/udp.py:444-465 | And only there: once more keys are claimed than that, finishing the seeds in flight stages exactly all of them |
| `ServerAsync.CapIsNotKept` | server/src/slotsync/udp.py:420-430 | At every positive `max_staging` any number of deltas can be let in while their seeds are read, and all are staged with nothing left in flight |
| `ServerAsync.TwoEndsInFlight` | server/src/slotsync/udp.py:606-627 | A resent PUSH_END starts a second transaction beside the first |
| `ServerAsync.AsyncVerdictsAgree` | server/src/slotsync/udp.py:556-655 | Across the awaits: over every interleaving in which a key is not reopened and no PUSH_END of it sets out while another is in flight, all its verdicts agree, with each other and with one remembered before |
| `ServerAsync.OverlapCanDisagree` | server/src/slotsync/udp.py:619-655 | The condition is needed wherever it fails: from any loop in which two PUSH_ENDs of a key are putting an image the store would take, and some other card is valid, there is a continuation whose verdicts for the key are ACK of parent + 1 and CONFLICT with parent + 2 |
| `ServerAsync.VerdictIsNotStable` | server/src/slotsync/udp.py:619-655 | And it does fail: from an idle server, one whole-card push of any valid card, all its chunks sent and its PUSH_END sent twice, is told ACK and then CONFLICT |
| `ServerAsync.FinishDropsItsOwn` | server/src/slotsync/udp.py:659-685 | Unless its key is reopened while it waits, the buffer a PUSH_END drops is the one it decided on |
| `ServerAsync.ReopenedIsDropped` | server/src/slotsync/udp.py:659-685 | If it is reopened, the new attempt loses its buffer, and its PUSH_END is told the old verdict |
| `Push.GapReportIsExact` | wii/core/client.c:419-461 | If every window of a report arrives, in any order, the client resends exactly the missing chunks |
| `Push.EndAlwaysAnswers` | server/src/slotsync/udp.py:556-655 | Every PUSH_END processed draws at least one reply |
| `Push.CompleteDrawsVerdict` | server/src/slotsync/udp.py:606-685 | On a complete buffer that reply is one verdict, never a gap report |
| `Push.RoundPaysOff` | server/src/slotsync/udp.py:121-136 | Chunks only pay off what is owed, and a round in which every owed chunk lands completes the transfer |
| `Push.ChunkRoundDelivers` | wii/core/client.c:157-190 | A round is honest and delivers exactly the chunks named |
| `Push.ReportAndRoundDecide` | wii/core/client.c:396-461 | A whole report and a whole round give a verdict: if the report's windows and then the chunks the client sends all land, the next PUSH_END is answered with one verdict, the store's on the image when what came before was the image's |
| `Push.OpeningSends` | wii/core/client.c:332-361 | What goes out is PUSH_BEGINs alone, as a delta only while asked for and not refused; the push goes on only on an ACK, and as a whole card after a delta only if a reply said it cannot seed |
| `Push.DeclaringSends` | wii/core/client.c:204-262 | What goes out is declarations alone, each window until something acknowledges; if the push goes on they name exactly what its windows name |
| `Push.RoundsSend` | wii/core/client.c:369-462 | Every round sends exactly the chunks wanted and a PUSH_END; the first sends what the transfer owes, each later one repeats the last or sends exactly what the gap windows that came in name |
| `Push.AttemptIsInOrder` | wii/core/client.c:288-463 | Against any loss, delay, reordering and repetition, and with replies to anything else the console asked turning up at any wait: what goes out is a push in order, the result is read off a datagram that came, and success that answers a PUSH_END of this push is a version recorded with the image's digest |
| `Push.PushedIsInOrder` | wii/core/client.c:473-503 | The same of the delta push with its fallback: one whole-card push follows on the wire exactly when the first attempt ended in CHECKSUM |
| `Push.ResentBeginReadsAsCommit` | wii/core/client.c:396-411 | Success is not always the commit: a PUSH_BEGIN, of a whole card or a delta, is sent twice, its second ACK read at the wait for the verdict, every chunk lost; the push returns success and the store is as it was |
| `Push.ResentDeclarationReadsAsCommit` | wii/core/client.c:204-262 | The same with a declaration sent twice |
| `Push.StrayAckReadsAsCommit` | wii/core/client.c:58-77 | Nor is the ACK always this push's: with the reply to another request of the console (HELLO, head query, another card) the push returns success under whatever version that names, and the store is as it was |
| `Push.SentOnceIsTheCommit` | wii/core/client.c:396-411 | What a caller can check: on a socket with nothing outstanding, if no PUSH_BEGIN and no declaration was sent twice and the network repeats nothing, success answers this push's PUSH_END, so the version reported is on record with the image's digest |
| `Push.EverythingArrives` | wii/core/client.c:288-463 | A network that delivers everything, in any order and among anything else that leaves the buffer open: the push, whole card or delta without collision, ends in the store's verdict on the image |
| `PushClient.Link.Await` | wii/core/client.c:58-77 | The wait hands over any authenticated datagram of the console, whatever it answers, after whatever the network did meanwhile |
| `PushClient.ControlExchange` | wii/core/client.c:79-105 | Resends until something answers, at most `max_rounds` times |
| `PushClient.SendChunks` | wii/core/client.c:157-190 | Exactly one datagram per named chunk, in order, with the image's bytes at offset 1024 times its index |
| `PushClient.GatherGaps` | wii/core/client.c:419-461 | When the windows stop, the resend bitmap is exactly what the windows heard name; anything else that comes ends the push as the code reads it |
| `PushClient.Open` | wii/core/client.c:332-361 | The loop is the specified opening, fallback included |
| `PushClient.Declare` | wii/core/client.c:245-262 | The loop is the specified declaring of the bitmap's windows |
| `PushClient.RunRounds` | wii/core/client.c:369-462 | The loop over bitmap, chunks and gap reports is the specified rounds |
| `PushClient.PushOnce` | wii/core/client.c:288-463 | The checks before anything is sent, then the specified attempt; state of console, server and network included |
| `PushClient.PushDelta` | wii/core/client.c:473-503 | The whole call is the specified push with its fallback; so what it sends and what its success means are those of `Push.PushedIsInOrder` |
| `Fingerprint.Hash` | wii/core/fingerprint.c:15-28 | FNV-1a of the bytes |
| `Fingerprint.OneByteChangesFnv` | wii/core/fingerprint.c:15-28 | Two buffers of one length that differ in exactly one byte have different fingerprints |
| `Fingerprint.Scan` | wii/core/fingerprint.c:30-77 | Fails exactly when a buffer is too small and then touches nothing; otherwise the table describes the card, the bitmap names every chunk of every changed block and none past the card, and the result is their number |
| `Fingerprint.OneByteIsAlwaysSent` | wii/core/fingerprint.c:30-77 | Every chunk of a block changed in a single byte is marked |
| `Fingerprint.DirtyChunksRebuildCard` | wii/core/fingerprint.c:30-77 | If no changed block collides, the parent overlaid with the marked chunks is the card |
| `Fingerprint.CollisionIsMissed` | wii/core/fingerprint.c:30-77 | And only then: with a collision it is not |
| `Delta.TrimWindow` | wii/core/client.c:204-241 | A window without its trailing zero bytes names the same chunks |
| `Delta.DeclareDelta` | wii/core/client.c:245-262 | The windows sent are the specified ones: they name exactly the dirty chunks, each fits a datagram, and all-zero windows are not sent |
| `Delta.DeclaresPastTheEnd` | wii/core/client.c:269-279 | True exactly when the last byte names a chunk past the card |
| `Delta.HonestRun` | server/src/slotsync/udp.py:520-554 | Any honest run, through sweeps that come in time, gap reports and anything that concerns other keys, leaves the buffer holding the seed overlaid with what was sent |
| `Delta.DeltaPreservesMeaning` | server/src/slotsync/udp.py:478-627 | A delta on the parent its table was taken from, every declared chunk landing in any order, without collision: the buffer is the client's card byte for byte and exactly that is put to the store |
| `Delta.WholePushPreservesMeaning` | server/src/slotsync/udp.py:411-627 | The same for a whole-card push |
| `Delta.DeltaIsNeverTrusted` | server/src/slotsync/udp.py:478-616 | Over a whole run on any seed with any table: PUSH_END gives the store's verdict on an image with the card's own digest, or CHECKSUM with the buffer dropped and nothing stored |
| `Delta.RefusedDeltaThenWholeCard` | wii/core/client.c:480-501 | After such a CHECKSUM the whole-card push is accepted at once and ends in the store's verdict on exactly the client's card |
| `Push.DeltaPushCommits` | wii/core/client.c:204-279 | Scan, windowed declaration, unpacking, chunk sends and splice composed: the PUSH_END is answered with the store's verdict on exactly the client's card |
| `Pull.Receive` | wii/core/client.c:630-707 | The receive loop is the fold of the one-datagram rule, ending at a full window, an error or silence |
| `Pull.AbsorbAllIsFaithful` | wii/core/client.c:630-707 | Genuine datagrams never put a wrong byte in, `outstanding` is always requested-in-range minus received, and nothing carried is missed unless a full window or an error comes first |
| `Pull.CountMissing` | wii/core/client.c:548-564 | The number of absent chunks and the first of them |
| `Pull.NextRequest` | wii/core/client.c:747-766 | The next request names exactly the first `window` absent chunks that one bitmap can reach, and `outstanding` restarts at their number |
| `Pull.Pull` | wii/core/client.c:566-773 | If every reply to a request such a pull sends is genuine, success means the output is the version byte for byte; whatever the versions, each chunk of a finished output is that of the piece stored for it, which came in reply to a request of this pull; the number of requests is bounded whatever happens; giving up takes at least `max_rounds` of them; once a network that has been silent for fewer than `max_rounds` requests answers all it is asked, success comes in exactly one request a window |
| `Pull.NamedVersionIsGenuine` | server/src/slotsync/udp.py:687-769 | A request that names its version is answered from that version's bytes, now and after any later pushes |
| `Pull.NamedPullIsGenuine` | server/src/slotsync/udp.py:687-769 | A pull that names its version, over any network that loses, delays and repeats what a growing store answers to such requests, is given nothing but that version |
| `Pull.StoreAnswersAreGenuine` | server/src/slotsync/udp.py:687-769 | So is a pull of head as long as head is the same whenever a request that names no version is answered |
| `Pull.AssembledIsImage` | wii/core/client.c:689-707 | The exact condition for a finished output to be a given version: chunk for chunk, the piece stored agrees with it |
| `Pull.OneVersionIsWhole` | wii/core/client.c:689-707 | Against a growing store, pieces that all name one version make exactly that version |
| `Pull.PushesDoNotSwitchThePull` | wii/core/client.c:768-771 | A pull of head against a store others push to stays on the version of its first answer |
| `Pull.VersionsCanMix` | wii/core/client.c:600-613 | The exception: chunk versions are not compared. For any window, two successive heads of equal size and any cut inside the window: nothing comes in time for the first head request, the front of its late answer and the rest of the second one's come then, and everything after is answered in full; to the client that is a loss-free network for the mixture under the older version |
| `Pull.PullWhileHeadMoves` | wii/core/client.c:566-773 | So the pull itself returns success, under the older version, with exactly the mixture, which is neither image unless the two agree inside or outside what was taken from the newer |
| `Pull.StrayAckIsIgnored` | wii/core/client.c:645-684 | Once the size is known an ACK to something else changes nothing, wherever it comes |
| `Pull.StrayAckNames` | wii/core/client.c:645-684 | Before that, one that names the card's own size, as a late PUSH_BEGIN's does, names the pull: the answer that follows is taken in under its version |
| `Pull.StrayAckMixes` | wii/core/client.c:645-771 | What that comes to when nothing is lost: success under the stray version, with the first window of the card and the rest of that version, so the card itself exactly when it fits one window or the two agree past it |
| `Pull.StrayNameFitsAWindow` | wii/core/client.c:645-771 | And when no such version is on record, only a card of one window is ever finished under its name |
| `FpStore.FileRoundTrip` | wii/core/fingerprint.c:139-172 | Walking an encoded store yields every entry in order, short names padded, and ends exactly at its end |
| `FpStore.RecordRoundTrip` | wii/core/fingerprint.c:111-128 | A record survives its encoding, except that a short name comes back padded |
| `FpStore.StoreNext` | wii/core/fingerprint.c:139-172 | On any bytes at all the walk stays in bounds and yields exactly the entry that is there |
| `FpStore.FindInStore` | wii/core/fingerprint.c:174-206 | The first matching entry within the header's count, its table copied out; the caller's table is untouched on failure |
| `FpStore.StorePut` | wii/source/wii_fingerprint.c:135-201 | The new file is the new record, then every other card's record, under a header that counts both modulo 65536; an inconsistent record changes nothing |
| `FpStore.CountAfterPut` | wii/source/wii_fingerprint.c:76-94 | Counts exactly the records the rewrite will emit |
| `FpStore.PutThenFind` | wii/source/wii_fingerprint.c:135-201 | Put then find returns the new record and table if and only if the name fills six bytes, the 16-bit count has not wrapped to zero, and the reader has room |
| `FpStore.PutKeepsOthers` | wii/source/wii_fingerprint.c:174-184 | Every other card's lookup is unchanged by a put |
| `FpStore.MergeRuntime` | wii/source/wii_fingerprint.c:203-236 | Merging is the left fold of puts over the incoming file's entries |
| `FpStore.MergeThenFind` | wii/source/wii_fingerprint.c:203-236 | After a merge a card's lookup is its last incoming entry, or what it was before |
| `FpStore.LoadFingerprints` | nintendont/kernel/SlotSync.c:361-451 | The kernel's 512-byte sliced loader accepts exactly what the whole-file lookup finds and the version, size and digest checks allow, loads that table and touches no other slot's share, on any bytes a FAT file can hold |
| `FpStore.Reader.Skip` | nintendont/kernel/SlotSync.c:337-349 | Slice-wise skipping succeeds exactly when the bytes are there and then stands just past them |
| `Kernel.RunKeepsTrust` | nintendont/kernel/SlotSync.c:592-778 | Over any run in which no stray ACK is taken for a commit, a table marked valid is the block hashes of the image committed as the slot's parent |
| `Kernel.MistakenTrust` | nintendont/kernel/SlotSync.c:688-740 | After a stray ACK the slot is still trusted if and only if the version it names is on record with the image's digest |
| `Kernel.HaltedIsPermanent` | nintendont/kernel/SlotSync.c:592-778 | Once halted, no turn of the worker touches the slot or the store again |
| `Kernel.ConflictHalts` | nintendont/kernel/SlotSync.c:759-769 | A heard conflict halts the slot and leaves the store alone |
| `Kernel.ZeroNeverOverwrites` | nintendont/kernel/SlotSync.c:898-922 | However version 0 came to be adopted, against a card the server has no push moves the store, and one that hears the store's answer halts, unless the card is head already or one the store refuses |
| `Kernel.AdoptsZero` | nintendont/kernel/SlotSync.c:898-922 | In one turn version 0 is adopted exactly when the head query draws UNKNOWN_CARD, or draws no answer while that is still the last error code; any ACK to it halts the slot |
| `Kernel.AdoptedBecause` | nintendont/kernel/SlotSync.c:898-922 | Over a run that starts without that code: whenever a slot has adopted version 0, some query drew UNKNOWN_CARD, its own in that turn, or an earlier one of whichever slot whose code still stood when its own drew nothing |
| `Kernel.StaleCodeAdopts` | nintendont/kernel/SlotSync.c:898-922 | That case occurs: one slot draws UNKNOWN_CARD and cannot reconnect, the other's query draws nothing, and the other starts at version 0 although the server has its card; its next heard push halts it |
| `Kernel.TrustedDeltaRebuilds` | nintendont/kernel/SlotSync.c:625-636 | A delta built from a trusted table against a server seeded from the slot's parent rebuilds the card exactly, without collision |
| `Kernel.OversizeIsMarkedValid` | nintendont/kernel/SlotSync.c:732-740 | A card over its table share is marked valid although nothing was tabled |
| `Kernel.InitIsTrusted` | nintendont/kernel/SlotSync.c:1021-1039 | A slot started from an honest state file and an honest record the loader accepted is trusted from the start |
| `Kernel.SyncSlot.PushSlot` | nintendont/kernel/SlotSync.c:592-778 | The slot and the store after a push are the specified ones, and a delta is only used when the table was trusted, with a bitmap naming exactly the changed chunks |
| `Kernel.SyncSlot.Work` | nintendont/kernel/SlotSync.c:952-969 | One turn of the worker: lineage first, then the push, nothing when halted or clean |
| `Policy.Launcher.SyncOne` | wii/source/main.c:266-436 | The launcher's sync with other users of the store between its calls, whatever its head query, push and pull end with, is the composition of the three specified steps |
| `Policy.DolphinCards.Pull` | dolphin/src/slotsync_dolphin/sync.py:97-153 | The PC pull: refuse unpushed changes, remember when current, else download, compare with the advertised digest, write and remember |
| `Policy.DolphinCards.Push` | dolphin/src/slotsync_dolphin/sync.py:155-193 | The PC push: nothing when unchanged; what the server accepted is remembered |
| `Policy.NextKeeps` | wii/source/main.c:266-436 | Every step of the whole system, but those two mistakes, keeps every client sound |
| `Policy.RunAllKeeps` | wii/source/wii_saves.c:255-294 | Whole-system runs with any number of clients editing, pushing, pulling, merging, crashing and rolling back, whatever the head queries are told, in which no stray ACK is taken for a commit and no mixture for a version: each recorded digest is unset or the digest of some stored version |
| `Policy.MixtureIsSound` | wii/source/main.c:405-426 | The exact consequence of a pull that brought a mixture: a sound client is sound after it if and only if the mixture's own digest is on record for the card |
| `Policy.StartsSound` | wii/source/wii_saves.c:255-294 | So from a system no one has synced yet, whatever cards the devices hold |
| `Policy.NoSaveIsLost` | wii/source/main.c:356-424 | Whatever the sync of a sound client overwrites is in the card's history or was just written to the .bak file, unless a PC game wrote the card after Dolphin's pull had checked it |
| `Policy.LostOnlyByMistake` | wii/source/main.c:356-424 | Over any run, a save is otherwise lost only by a client that took a stray ACK for its commit or a mixture for a version, and a launcher's was then told of a version newer than it had on record |
| `Policy.MistakenSaveIsLost` | wii/source/main.c:356-424 | After a stray ACK, whatever the rest of the world did since and whichever version the pull brings, the next sync destroys the only copy if and only if head has passed the version named |
| `Policy.MixtureIsOverwritten` | wii/source/main.c:405-426 | After a mixture the next sync destroys it, and it was nowhere else, if and only if head has passed the version the pull reported |
| `Policy.OverwrittenReadsBack` | wii/source/main.c:356-424 | And at the end of any later run it still reads back |
| `Policy.RacedSaveIsLost` | dolphin/src/slotsync_dolphin/sync.py:123-146 | That one window is real: a save made inside it is in no history and in no backup |
| `Sha256.Context.Update` | wii/core/sha256.c:69-98 | After any updates the state is the fold over the whole blocks of everything fed in and the buffer is the remainder |
| `Sha256.Context.Final` | wii/core/sha256.c:100-124 | The digest is that of the padded message of section 5.1.1 of FIPS 180-4, bit length modulo 2^64 |
| `Sha256.HmacContext.Final` | wii/core/sha256.c:171-178 | The streamed HMAC is H(K^opad, H(K^ipad, text)) of section 2 of RFC 2104, for keys of any length |
| `Sha256.HmacContext.constructor` | wii/core/sha256.c:136-164 | Long keys are hashed, short ones zero-padded, and both inner and outer contexts start from their pads |
| `Sha256.PadIsInjective` | wii/core/sha256.c:100-124 | Padding never makes two messages below 2^61 bytes the same |
| `Sha256.FoldAppend` | wii/core/sha256.c:69-98 | Folding over whole blocks may be cut anywhere |
| `Wire.SsPack` | wii/core/protocol.c:99-126 | -1 and nothing written when a size does not fit; otherwise the buffer starts with the signed datagram |
| `Wire.SsUnpack` | wii/core/protocol.c:128-190 | The same checks in the same order, over a streamed signature |
| `Wire.UnpackUndoesPack` | server/src/slotsync/protocol.py:120-228 | What either side packs is read back field for field; the server's game id is the decoded, stripped one |
| `Wire.NameRoundTrip` | server/src/slotsync/protocol.py:214-222 | Names of up to six characters that survive stripping come back from their six bytes |
| `Wire.AcceptedIsPacked` | wii/core/protocol.c:128-190 | Only genuine datagrams parse: what is accepted is byte for byte what packing its fields under the key gives, if and only if the reserved byte is zero |
| `Wire.BothSidesAgree` | server/src/slotsync/protocol.py:155-228 | The server accepts exactly what the console accepts, for the two slots that exist, and reads the same fields |
| `Wire.TamperingNeedsTheTag` | server/src/slotsync/protocol.py:231-238 | Two different accepted datagrams with one tag are an HMAC collision |
| `Memcard.Checksums` | server/src/slotsync/memcard.py:78-95 | The additive and inverse sums of the big-endian words, 0xFFFF stored as 0; odd ranges are refused |
| `Memcard.SingleWordCorruption` | server/src/slotsync/memcard.py:78-95 | A single changed word escapes both sums if and only if the word count is 1 modulo 65536 and the sum moves between 0 and 0xFFFF |
| `Memcard.CorruptionIsCaught` | server/src/slotsync/memcard.py:98-130 | So in header, directory and allocation table a changed word, covered or stored, is always caught |
| `Memcard.PickCopy` | server/src/slotsync/memcard.py:294-332 | An intact copy is returned unless both are bad; of two intact ones the higher signed counter, ties to the primary |
| `Memcard.WalkChain` | server/src/slotsync/memcard.py:458-483 | Returns the chain exactly when every block met is on the card and none is met twice |
| `Memcard.ReadComments` | server/src/slotsync/memcard.py:407-455 | Exactly the 64 bytes at the address in the save's own stream, across a block boundary if need be, and nothing when address or chain is bad |
| `Memcard.FreeListIsSound` | server/scripts/make_fixture.py:88-92 | The blocks handed out, interleaved or not, are all the data blocks, each once |
| `Memcard.ChainsAreDisjoint` | server/scripts/make_fixture.py:94-98 | No two saves share a block |
| `Memcard.LinkAll` | server/scripts/make_fixture.py:142-146 | The allocation table links every chain in order and ends it |
| `Memcard.ScatterAll` | server/scripts/make_fixture.py:159-170 | Every save's stream on the card is its payload, undisturbed by the others |
| `Memcard.CommentRoundTrip` | server/scripts/make_fixture.py:62-172 | Builder against parser: for any saves that fit, fragmented or not, the walk recovers the chain exactly and the comment reads back byte for byte |
| `Memcard.Seal` | server/scripts/make_fixture.py:111-153 | Writing a block's checksum pair where its layout puts it makes its predicate hold and changes nothing else |
| `Memcard.EntryReads` | server/scripts/make_fixture.py:116-132 | The fields the parser reads from a directory entry are those it was written from |
| `Memcard.WalkFinds` | server/src/slotsync/memcard.py:335-404 | On a directory, table and data as built, the walk over the entries finds exactly the saves, in order |
| `Memcard.Parse` | server/src/slotsync/memcard.py:199-271 | The parser is the specified one: refused sizes and blocks, the copies chosen, the card's fields, the directory walk with each save's comment |
| `Memcard.BuildCard` | server/scripts/make_fixture.py:62-172 | Builder against the whole parser: a card is built exactly when the size is real and the saves fit, and then it parses, every checksum intact and the written copies chosen, to its fields, its free blocks and exactly the saves in order with their comments, but for saves whose code marks an empty slot |
| `NonceCache.ExpireIsFilter` | server/src/slotsync/replay.py:98-104 | Under a clock that never runs back the prefix-only expiry is the full filter |
| `NonceCache.CheckTracks` | server/src/slotsync/replay.py:62-96 | One message: a guarded nonce of an admitted device is accepted exactly when no earlier use still protects |
| `NonceCache.RunTracks` | server/src/slotsync/replay.py:62-110 | Over any run the table is exactly the live tail of each device's history, sweeps included |
| `NonceCache.AcceptedTwice` | server/src/slotsync/replay.py:62-96 | If one device's guarded nonce is accepted twice, more than ttl passed or at least per_device other acceptances by it came between |
| `NonceCache.TableIsBounded` | server/src/slotsync/replay.py:76-96 | Both table bounds hold in every state |
| `NonceCache.Cache.CheckAndRecord` | server/src/slotsync/replay.py:62-96 | The table and the answer after a message are the specified ones |
| `RateLimit.TokenBucket.TakeFrom` | server/src/slotsync/ratelimit.py:30-40 | Refill up to capacity, then spend or refuse |
| `RateLimit.SweepIsInvisible` | server/src/slotsync/ratelimit.py:87-95 | If the idle timeout refills a bucket, forgetting an idle one and making a full one later cannot be told apart |
| `RateLimit.GrantsAreBounded` | server/src/slotsync/ratelimit.py:30-95 | Between any two times a key not reset is granted at most capacity + rate times the time between, across any number of sweeps |
| `RateLimit.ShortTimeoutLeaks` | server/src/slotsync/ratelimit.py:68-95 | The timeout condition is needed at every table size from two up: without it a key spends two full buckets too soon |
| `RateLimit.TableIsBounded` | server/src/slotsync/ratelimit.py:68-81 | The table never exceeds max_keys |
| `RateLimit.Limiter.AllowOne` | server/src/slotsync/ratelimit.py:68-81 | The buckets and the answer after a call are the specified ones |
| `StateFile.Save` | wii/source/wii_saves.c:234-253 | The text printed is one line per entry |
| `StateFile.StateFind` | nintendont/kernel/SlotSyncLogic.c:243-299 | The pointer-walking parser computes the specified lookup on any text |
| `StateFile.ParseNumber` | nintendont/kernel/SlotSyncLogic.c:16-48 | Reads the longest run of digits in the base its prefix selects, modulo 2^64 |
| `StateFile.FindReadsPrint` | nintendont/kernel/SlotSyncLogic.c:243-299 | On whatever the launcher printed the kernel finds exactly the first entry for a card, version and 32-byte digest, and nothing for a card not there |
| `StateFile.UniqueEntryIsFound` | wii/source/wii_saves.c:296-314 | With one entry per card, that entry is the one returned, wherever it stands |

## Left out

- `PushClient.PushOnce`: the client's nonces, the 16-datagram limit on skipping unauthenticated datagrams and transport errors on send are not modelled; a reply that fails to authenticate is simply not delivered.
- `Pull.Pull`: the bounds check `offset + payload_len` is exact here; the 32-bit `size_t` of the consoles is not modelled. Pulls of an image within 1023 bytes of 4 GiB are outside the byte guarantee, because `ss_chunk_count` wraps there.
- `Policy.NoSaveIsLost`: a card file is replaced in one step; the window between `remove` and `rename` in `wii_saves_write` is not modelled.
- `Policy.Launcher.SyncOne`: one card at a time; the fingerprint table it saves along the way is covered by `FpStore` and `Delta`, and no claim is made that the first push after a runtime session is a delta.
- `Policy.DolphinCards.Pull`: starts from a card the server has; asking it to format a blank one first is one more push from elsewhere.
- `Push.AttemptIsInOrder`: the meaning of success takes it that nobody else sends datagrams under this transfer's key, and that the key's PUSH_ENDs all carry this image's digest.
- `Push.SentOnceIsTheCommit`: of one attempt, from a socket with nothing outstanding; after a delta refused for its digest, datagrams of the first attempt may still be on their way to the second.
- `Kernel.RunKeepsTrust`: the card does not change while it is being pushed, the lost-ACK recovery that guesses from head and size is excluded, and quiet and cooldown timing is reduced to "the worker looks at the slot".
- `Kernel.SyncSlot.PushSlot`: each slot has its own table array; that slices of the shared array do not overlap is proved for the loader only.
- `Kernel.InitIsTrusted`: a state file without a digest (all zeros) lets version and size alone decide, and then nothing follows about the bytes.
- `ServerAsync.TurnKeeps`: reading a seed is one atomic step of its thread, and so is a store transaction.
- `FpStore.LoadFingerprints`: files of 4 GiB and more, which FAT cannot hold, are excluded; FatFs errors other than a short read are not modelled.
- `FpStore.StorePut`, `FpStore.MergeRuntime`: writing a temporary file and renaming it is one step; failures of the file system or of `malloc` are not modelled.
- `Memcard.BuildCard`: at most 127 saves, the directory's own size, which `build_card` does not check; texts come padded to their fields.
- `Memcard.Parse`: serial, format time, dates, permissions, icon and banner fields and warnings are not reported, and texts are left as bytes.
- `Memcard.PickCopy`: warnings are not modelled.
- `RateLimit.GrantsAreBounded`: tokens are real numbers, not floats.
- `Server.StepKeeps`: expiry of blobs (pruning) is not modelled, except that a seed or a pull may find no blob.
- Sockets, pacing, cache maintenance, logging, the web interface, configuration, the gamepad and the chainloader: no hard property depends on them.
- SQLite and the file system: a transaction is one step, blobs are a map from digest to bytes, names are ASCII (case folding beyond ASCII is not modelled), and time stamps, device rows and notes are dropped.
- SHA-256's 64 rounds and the strength of HMAC: the block function is uninterpreted.
- The launcher's own reader of the state file (`sscanf`): only the kernel's reader is modelled.
- Text decoding, dates, banners, icons and `format_card`: no hard property depends on them.
- `inifile.py`, `ssl_config_parse`, `ssl_parse_ipv4` and the log throttles: true but easy.
