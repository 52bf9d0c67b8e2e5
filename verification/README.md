# Arclain protocols and stores, modelled and proved in Dafny

This project models the parts of Arclain whose correctness depends on every interleaving, every
retry or every input rather than on one branch:

- the archive-import client and its decoder process: frames, inventory, transfer, heartbeat, and the
  reader, caller and watchdog threads with their separate atomics;
- the Merkle commitment over file identities, with its path normalisation and serialisation;
- the plugin session store: revisions, per-plugin locks, staged removal and the enabled flag;
- publication of one release on two hosts, interruptible and retried;
- the line-preserving secret store.

`dafny verify dfyconfig.toml` checks everything.

## Layout

| file | what it holds |
|---|---|
| `Common.dfy`, `Bytes.dfy` | options and sequences; bytes, digests and little-endian integers |
| `Protocol.dfy` | frames, streams of frames, the writing and reading ends of the pipe |
| `Worker.dfy` | sending an inventory, emitting an entry, the shared output with its heartbeat |
| `InventoryReception.dfy` | the client's reception of an inventory |
| `ArchiveSession.dfy` | `next` and reads through caller buffers, against any worker |
| `Transfer.dfy` | from decoder reads to caller buffers, end to end, on any byte prefix |
| `Progress.dfy` | a diligent caller of an honest worker gets everything |
| `WorkerRun.dfy` | the decoder process from its greeting to COMPLETE or a failure report |
| `WholeWay.dfy` | from the reads of the decoder's jobs to the caller's buffers |
| `Liveness.dfy`, `LivenessRates.dfy` | reader, caller and watchdog as single loads and stores over one clock; the rate windows |
| `Paths.dfy`, `Merkle.dfy`, `MerkleTree.dfy`, `MerklePadding.dfy` | normal forms, encodings and levels, the tree, binding for lists of any lengths |
| `PluginSessions.dfy`, `PluginRuns.dfy` | the store's sections and steps; what holds over every run |
| `PluginDocuments.dfy` | what the documents of a session are: the roots its calls drew |
| `PluginDisable.dfy`, `PluginProgress.dfy` | what a disable contains, exactly; calls left alone, locks and who holds them, and a late publication |
| `Release.dfy` | two hosts, runs of `publish`, retries |
| `SecretStore.dfy`, `SecretMap.dfy`, `SecretFile.dfy` | lines and index; the ordered map they stand for; the file and the commands |

Mutable objects of the source are classes (`Writer`, `Reader`, `Heartbeat`, `ArchiveSession`,
`EntryReader`, `SessionStore`, `Publisher`, `Store`), each method proved against a function of the
old state; what the source promises is then proved of those functions. Threads and in-flight calls
are state machines: a run is a list of actions, each one atomic load, store, lock section or await.

## Reading the results

- **Stall rule.** `Liveness.StallIsSound` and `Liveness.QuietPollDecides` are the two halves. Under
  every interleaving a stall verdict needs one request and one wait that both lasted `stall_ms`; the
  wait counts until the mark is cleared, which is shortly after `read_frame` returns, and
  `Liveness.StallAfterReturn` shows that this matters. A poll that nothing disturbs fires exactly when
  the two clock readings are that old. `Liveness.VerdictIsActedOn` is what becomes of a verdict: the
  child is killed and the timeout reported, and `Liveness.OverdueIsKilled` puts the two together.
- **Rate windows.** `LivenessRates.CloseDecides` is the exact condition of a kill in the configured
  rate. `LivenessRates.TrickleIsConservative` states the kill in terms of the frames judged, including
  the tear that the source's comment concedes, `LivenessRates.WindowsTelescope` that the windows add
  up, and `LivenessRates.OnlyStreamingCounts` what is counted at all.
- **Transfer.** `WholeWay.FromJobsToBuffers` and `WholeWay.EveryJobArrives` are the two halves, from
  what the decoder's jobs read to what the caller's buffers hold. They rest on `WorkerRun.Serve`,
  which says what the process writes, on `Transfer.EndToEnd`, for every cut of such an output, and on
  `Progress.EverythingArrives`; `WholeWay.RefusalArrives` is the opening that is refused. Errors are
  part of all of these: the caller sees the one that stopped the worker.
  `ArchiveSession.SafeAgainstAnyWorker` needs no honesty at all.
- **Merkle.** Nothing is assumed about collisions: `MerkleTree.FilesBinding`,
  `MerklePadding.AnyLengthBinding`, `MerkleTree.SerialisedBinding` and `Merkle.ProofBinding` return
  two colliding strings among those hashed. `MerklePadding.PaddingDecidesRoot` is the converse.
- **Sessions.** `PluginRuns.EveryRun` carries one invariant through every action;
  `PluginRuns.DispatchLosesNoUpdate` and the exactness lemmas read off it.
  `PluginDocuments.PublicationServesWhatWasDrawn` ties what is served to what the guest replied,
  `PluginProgress.WaitsOnlyForHolders` says that no lock is ever left behind, and
  `PluginDisable.DisableIsExact` is what a disable contains.
- **Release.** `Release.RetriesConverge` is for one set of artifacts; `Release.LiveHostsAgree` is
  for any mixture of artifacts over any stopped attempts.
- **Secrets.** `SecretMap.AnySequence` and `SecretFile.AnySession` cover every sequence of
  operations; `SecretFile.PutThenReload` is the exact condition for the file to load again.

Where the code and its own documentation differ, the model follows the code:

- `crates/app/src/plugins.rs:1569-1573` says that once a disable has returned nothing more is
  published. A call that has passed its last check before the disable still publishes:
  `PluginProgress.DisableCanBeLate` is a run from the empty store, and `PluginDisable.DisableIsExact`
  the condition: a call can still register or publish if and only if it stood right before the
  registration, or right before the publication with its session live.
- `crates/archive-import/src/client.rs:334-340` charges the eight bytes of INVENTORY_END to
  `max_index_bytes`; `crates/archive-import/src/worker.rs:223-240` does not.
  `InventoryReception.HonestInventoryArrives` gives the exact condition and
  `InventoryReception.EndFrameCanBeRefused` an inventory that is sent and refused.
- `just/release.py:270-271` calls published bytes immutable; what a later run compares of a live
  host is its asset names and its SHA256SUMS, so `Release.Holds` claims no more than that for a host
  that was live before the run. `Release.SumsBind` says what the checksum file is worth.
- `just/secret.py:141-143` leaves blank values to the callers: `Store.put` accepts one, and the saved
  file then no longer loads. `SecretFile.PutThenReload` is the exact condition.
- The value of a normalised path can read as a drive path (`./C:y`): `Paths.NormalizeAgain` is the
  exact condition under which normalising twice changes nothing, so canonicity is stated on
  (namespace, value) pairs.
- `crates/checksum/src/merkle.rs:405` truncates the file count to 32 bits:
  `MerkleTree.SerialisedReadsBack` holds if and only if the count fits.

## Model

| member | source | states |
|---|---|---|
| `Liveness.EveryRun` | crates/archive-import/src/client.rs:85-142 | after any sequence of single loads, stores and clock ticks: each stored mark is exactly the clock reading it stands for, the recorded starts of wait, mark and request are what the threads are doing, and what a poll has loaded still speaks of the moment of its clock reading |
| `Liveness.StallIsSound` | crates/archive-import/src/client.rs:256-263 | a stall verdict under any interleaving means that at the poll's clock reading one request had been sent and unanswered for at least `stall_ms`, and for at least `stall_ms` the reader had been inside one `read_frame`, counting start-up, or had come back from it with its mark not yet cleared |
| `Liveness.StallAfterReturn` | crates/archive-import/src/client.rs:182-190 | the second case is real: for every limit a run in which a `read_frame` returns before the limit has passed and the poll fires all the same, before the mark of that read is cleared |
| `Liveness.QuietPollDecides` | crates/archive-import/src/client.rs:257-263 | a poll whose loads no store disturbs, with no `decode_sent` half done, fires if and only if a request is open and the clock readings of the last `decode_sent` and of the current `read_frame` (at start-up, the spawn) both lie at least `stall_ms` before its own |
| `Liveness.VerdictIsActedOn` | crates/archive-import/src/client.rs:280-290 | in every run a poll that comes to its decision ends the watchdog with the child killed if and only if it was cancelled or there is a verdict, is reported as a timeout if and only if there is a verdict, and otherwise begins the next poll with nothing changed |
| `Liveness.DoneEndsPolling` | crates/archive-import/src/client.rs:256 | a poll begins if and only if the session is not over, and the watchdog ends without a kill otherwise |
| `Liveness.CallsDecide` | crates/archive-import/src/client.rs:457-498 | in every run the session is over, a decode open and, unless `answered` is half done, a request unanswered exactly as the calls the caller has made have it, the spawn being the first request, whatever the other threads do |
| `Liveness.OverdueIsKilled` | crates/archive-import/src/client.rs:256-289 | a worker that is overdue when a poll begins is killed by that poll and reported as timed out, if nothing else moves meanwhile |
| `Liveness.StartsAreHonest` | crates/archive-import/src/client.rs:131-142 | the recorded wait lasts from a clock reading before `read_frame`, or the spawn, to its return; the mark outlives it only until it is cleared; the request lasts while it is open; each step keeps a start, ends it, or begins it at the current clock |
| `Liveness.FlagShowsMark` | crates/archive-import/src/client.rs:129-136 | the outstanding flag is never visible without a mark at least as late as the request it announces |
| `LivenessRates.EveryRun` | crates/archive-import/src/client.rs:191-279 | in every run the counters are the sums the reader added, the window variables are those of the last close, and the verdict is the test on the last two closes |
| `LivenessRates.CountersInEveryRun` | crates/archive-import/src/client.rs:201-211 | the wait counter is the exact sum of the waits, never wraps and never exceeds elapsed time, and the recorded closes form windows |
| `LivenessRates.WindowCloses` | crates/archive-import/src/client.rs:264-279 | a window close records the frames whose bytes and waits were read, keeps every window invariant, and kills exactly when it is not the first and its bytes, with one more, still fall short of the configured rate over its own waiting time |
| `LivenessRates.ShortMeans` | crates/archive-import/src/client.rs:270-273 | the test restated in the frames judged and the configured rate: own bytes plus early bytes less what the previous close took early, with one byte more, are at most `min_decode_rate` times the waiting time in milliseconds over 1000 |
| `LivenessRates.TrickleIsConservative` | crates/archive-import/src/client.rs:250-279 | a kill for trickling has a whole window before it, spans at least `stall_ms` of waiting, and a thousand times the bytes of its own and early frames are below `min_decode_rate` times that waiting plus a thousand times what the previous close took early |
| `LivenessRates.CloseDecides` | crates/archive-import/src/client.rs:267-278 | in every run a close gives a verdict if and only if it is not the first and the bytes counted since the close before, with one more, still fall short of the configured rate over the waiting since then |
| `LivenessRates.PollClosesWhenDue` | crates/archive-import/src/client.rs:266-268 | in every run a poll that has loaded the wait closes the window if and only if the waiting since the last close has reached `stall_ms` |
| `LivenessRates.RateOnlyWhileDecoding` | crates/archive-import/src/client.rs:265-279 | the rate is looked at if and only if a DECODE is open, that is from its sending to COMPLETE |
| `LivenessRates.OnlyStreamingCounts` | crates/archive-import/src/client.rs:181-227 | in every run, between two turns of the reader, the byte counter is the payload of exactly the DATA frames of an entry that had begun and not ended, the wait counter the time between the clock readings around exactly those frames, and every frame but a heartbeat was handed over in order up to the failed read or the departure of the receiver |
| `LivenessRates.WindowsTelescope` | crates/archive-import/src/client.rs:270-277 | in every run the saturating differences the watchdog computed at its closes add up to the two counters at the last close, so nothing is judged twice or lost, as long as the byte counter has not wrapped |
| `LivenessRates.TimeoutIsEarned` | crates/archive-import/src/client.rs:281-284 | the `stalled` flag is set only by one of the two verdicts, each with what it implies |
| `Protocol.DecodeEncoded` | crates/archive-import/src/protocol.rs:86-121 | where a frame starts, reading gives that frame and takes exactly its 5 + length bytes |
| `Protocol.DecodeExact` | crates/archive-import/src/protocol.rs:111-121 | whatever is read was the encoding of a frame within MAX_FRAME, followed by what is left |
| `Protocol.CutFrameRefused` | crates/archive-import/src/protocol.rs:111-121 | every strict prefix of a frame is refused as `Io` |
| `Protocol.PrefixReads` | crates/archive-import/src/protocol.rs:111-121 | any byte prefix of a stream reads as exactly its whole frames and then an `Io` error |
| `Protocol.StreamReads` | crates/archive-import/src/protocol.rs:111-121 | a whole stream has one reading: the frames written |
| `Protocol.WireFormat` | crates/archive-import/src/protocol.rs:86-99 | on the wire a frame is its tag, its length with the low byte first in four bytes, and its payload of at most 64 KiB; the thirteen tags are 1 to 13 |
| `Protocol.RefusedFrames` | crates/archive-import/src/protocol.rs:111-121 | reading fails with `Limit` if and only if the header announces more than 64 KiB, and with `Io` if and only if the header or the announced payload is cut |
| `Protocol.IndexIsEightBytes` | crates/archive-import/src/protocol.rs:125-128 | an index is read from exactly eight bytes, and anything else is `Corrupt` |
| `Protocol.Writer.WriteFrame` | crates/archive-import/src/protocol.rs:86-99 | one frame is one write after what was there, and an oversized frame writes nothing and gives `Limit` |
| `Protocol.Reader.ReadFrame` | crates/archive-import/src/protocol.rs:111-121 | reads the frame at the head and leaves exactly what follows it, or gives the decoding error |
| `Protocol.Reader.Forward` | crates/archive-import/src/client.rs:176-227 | the reader loop forwards every frame but empty heartbeats, in order, up to the error that ends the stream |
| `Worker.SendInventory` | crates/archive-import/src/worker.rs:213-246 | succeeds exactly for an inventory within counts, budget and frame size, having written all its frames; refused, it has written a prefix of them |
| `Worker.Emit` | crates/archive-import/src/worker.rs:247-271 | succeeds exactly when the reads end cleanly with the declared total, having written BEGIN, one DATA per read and END; otherwise it has written no END, and fails with `Limit` for a total past 64 bits and `Corrupt` for everything else |
| `Worker.BeatsDropOut` | crates/archive-import/src/worker.rs:26-28 | dropping empty heartbeats from the shared output leaves the worker's frames in order, wherever the beats fell |
| `Worker.Heartbeat.WriteFrame` | crates/archive-import/src/worker.rs:74-83 | one write under one lock appends one whole frame and restarts the interval |
| `Worker.Heartbeat.Wake` | crates/archive-import/src/worker.rs:49-64 | a beat goes out exactly after a whole silent interval, and the log keeps that of every beat |
| `InventoryReception.ReceiveInventory` | crates/archive-import/src/client.rs:331-365 | the receiving loop computes the recursive reception, error for error |
| `InventoryReception.AcceptedInventory` | crates/archive-import/src/client.rs:315-375 | any accepted inventory came after READY and ARCHIVE, has blocks before entries, both counts within `max_entries`, entry i carrying index i, and all payload including the end frame within `max_index_bytes` |
| `InventoryReception.GreetingIs` | crates/archive-import/src/client.rs:314 | the greeting is the text `arclain-import-v1` |
| `InventoryReception.WhyRefused` | crates/archive-import/src/client.rs:333-361 | a frame is refused with `Limit` if and only if the bytes or items are too many or a block comes after an entry, and otherwise with `Corrupt` if and only if it cannot be read, miscounts or does not belong there |
| `InventoryReception.WhyNothingComes` | crates/archive-import/src/client.rs:438-452 | a reported failure gives the error reported, or `Corrupt` if the report cannot be read; a closed channel gives what closed it, a broken pipe as a failed worker |
| `InventoryReception.HonestInventoryArrives` | crates/archive-import/src/client.rs:332-375 | an inventory the worker sends arrives unchanged if and only if it is well indexed and its payload plus eight bytes fits; otherwise the client fails with `Limit` if it does not fit and with `Corrupt` if it fits |
| `InventoryReception.EndFrameCanBeRefused` | crates/archive-import/src/client.rs:334-340 | an inventory that the worker sends and the client refuses |
| `ArchiveSession.ArchiveSession.Advance` | crates/archive-import/src/client.rs:457-509 | `next` on the session's fields computes the specified transition with the same errors |
| `ArchiveSession.EntryReader.ReadContents` | crates/archive-import/src/client.rs:518-545 | fills the front of the buffer with the next bytes, leaves the rest alone, and moves the state as specified |
| `ArchiveSession.NextIs` | crates/archive-import/src/client.rs:457-509 | a successful `next` before the end takes one frame: an empty COMPLETE followed by a successful exit, or a BEGIN whose index is in the inventory while no entry is active |
| `ArchiveSession.ReadIs` | crates/archive-import/src/client.rs:525-539 | a read that needs a frame takes one: END of the active entry closes it, a non-empty DATA is served from its front |
| `ArchiveSession.WhyNextFails` | crates/archive-import/src/client.rs:457-509 | `next` on what the caller can see: the interruption, `Corrupt` for an open entry, the end again once finished, `Io` for an unwritable DECODE, the channel's reason, the child's exit, and `Corrupt` for any frame but an empty COMPLETE or a BEGIN of an entry in the inventory |
| `ArchiveSession.WhyReadFails` | crates/archive-import/src/client.rs:518-545 | a read fails if and only if it needs a frame and none comes, or the frame is neither a non-empty DATA nor the END of the active entry; with the channel's reason in the first case and `Corrupt` in the second |
| `ArchiveSession.SafeAgainstAnyWorker` | crates/archive-import/src/client.rs:457-545 | against any worker, up to the first error: the frames consumed are exactly BEGIN, DATA and END of each entry handed out, one at a time, with indices in the inventory; bytes handed over are those payloads; and a finished archive was ended by one call of `next` that took an empty COMPLETE and saw a successful exit |
| `ArchiveSession.DecodeSentOnce` | crates/archive-import/src/client.rs:467-471 | DECODE is written successfully at most once, however often `next` fails and is called again |
| `Transfer.ForwardedFrames` | crates/archive-import/src/client.rs:182-227 | from any byte prefix of the shared output the reader forwards a prefix of the worker's own frames, and from all of it all of them |
| `Transfer.CompleteIsLast` | crates/archive-import/src/client.rs:473-498 | COMPLETE is reached only after the last entry of a decode that completed |
| `Transfer.OpensOnPrefix` | crates/archive-import/src/client.rs:315-375 | a client that opens on any prefix of an honest output has the worker's inventory and a prefix of the decode left |
| `Transfer.EndToEnd` | crates/archive-import/src/client.rs:457-545 | for every split of reads, heartbeat interleaving, byte prefix, cut of the channel and sequence of calls and buffer sizes without an error: the inventory is the worker's, each entry seen to end has exactly its bytes and declared length in emit order, an open one a prefix of its bytes, also if it is the one the worker broke off, and only a completed decode looks complete |
| `WorkerRun.Decode` | crates/archive-import/src/worker.rs:205-211 | entries are emitted in order, whole, until one fails, of which BEGIN and its reads up to the first that would exceed the declared length are out, and no END |
| `WorkerRun.RunWorker` | crates/archive-import/src/worker.rs:132-172 | in terms of the answers a run gets: it completes if and only if all allow it, and otherwise fails with the error of the first that does not, in the order they are asked; a refused opening has sent the archive's inventory up to the frame that was refused; a run cut short has sent all of it, the entries of the first jobs and what is out of the failed one |
| `WorkerRun.RequestGuards` | crates/archive-import/src/worker.rs:134-142 | a request is good if and only if it is an OPEN that parses and asks for at most 200000 entries and 64 MiB of index; `Limit` if it asks for more, `Corrupt` if it is none |
| `WorkerRun.DecodeGuards` | crates/archive-import/src/worker.rs:159-166 | the decode starts if and only if an empty DECODE came and the inventory passes inspection, with the errors of each |
| `WorkerRun.OneOutcome` | crates/archive-import/src/worker.rs:132-172 | the answers leave one outcome, and so one sequence of frames |
| `WorkerRun.Serve` | crates/archive-import/src/worker.rs:101-131 | everything the process writes is the output of the archive's own inventory, sendable within the limits asked for, and of its first jobs, completed or ended by the failure report, or the refused opening and that report; the report is of exactly the error that stopped the run; exit code 0 if and only if it completes |
| `WorkerRun.WritesHonestly` | crates/archive-import/src/worker.rs:247-271 | what was emitted is honest: each entry whole and of the declared length |
| `WorkerRun.RefusedNeverOpens` | crates/archive-import/src/client.rs:315-375 | no part of what a refused process writes is taken for an archive |
| `WholeWay.FromJobsToBuffers` | crates/archive-import/src/client.rs:315-545 | for any jobs, any failure in the worker, every heartbeat interleaving, byte prefix, cut and sequence of calls: a client that opens has the archive's own inventory, and without an error its caller's entries are the jobs' own in order, each the beginning of what the job's reads gave, all of it and of the declared length if it was seen to end; a completion means that the worker completed |
| `WholeWay.EveryJobArrives` | crates/archive-import/src/client.rs:315-545 | when the inventory is well indexed with eight bytes to spare and all that the worker wrote arrives, the client opens with that inventory, and a diligent caller sees no error but the one that stopped the worker: within a stated bound it has every job's entry with all of its bytes if the worker completed, and otherwise exactly that error |
| `WholeWay.RefusalArrives` | crates/archive-import/src/client.rs:313-375 | when all of a refused opening arrives, the client's open fails with exactly the error that the worker failed with |
| `Progress.CallOutcome` | crates/archive-import/src/client.rs:457-545 | on an honest decode that arrives whole, `next` between entries and any read fail only with the error that the worker reported |
| `Progress.EverythingArrives` | crates/archive-import/src/client.rs:457-545 | a caller that keeps making headway sees no error but the one the worker reported and, within a bound given by the stream, has every entry, in order, with all of its bytes, and the end, or that error |
| `Paths.NormalizeComponents` | crates/checksum/src/merkle.rs:67-82 | the stack loop computes the rendering of where the components lead |
| `Paths.ComponentsKeepMeaning` | crates/checksum/src/merkle.rs:67-82 | read as moves, the output leads where the input leads |
| `Paths.ComponentsCanonical` | crates/checksum/src/merkle.rs:67-82 | two component lists normalise equally if and only if they lead to the same (ups, names) |
| `Paths.NormalizeWritesMeaning` | crates/checksum/src/merkle.rs:105-174 | every path normalises to the normal form of its meaning: namespace, drive or authority, and place |
| `Paths.ShareReads` | crates/checksum/src/merkle.rs:84-98 | a UNC tail never pops server or share: authority and place read back separately |
| `Paths.NormalizeCanonical` | crates/checksum/src/merkle.rs:105-174 | two paths have equal (namespace, value) if and only if they mean the same |
| `Paths.NamespaceIs` | crates/checksum/src/merkle.rs:100-174 | the namespace from the characters: a letter and a colon make a drive, rooted by a slash or backslash after them, two slashes or backslashes a share, one a root, and what leads nowhere from here is the current directory |
| `Paths.SlashesSpellTheSame` | crates/checksum/src/merkle.rs:105-113 | a path and its spelling with slashes normalise equally |
| `Paths.NormalizeAgain` | crates/checksum/src/merkle.rs:105-174 | normalising a value again changes nothing if and only if it is not a relative one that begins like a drive |
| `Paths.DriveLookalike` | crates/checksum/src/merkle.rs:100-119 | the exception: a relative name that looks like a drive path keeps its value and changes namespace |
| `Merkle.LeafInputInjective` | crates/checksum/src/merkle.rs:176-191 | leaf encodings are injective on namespace, path, size and content hash |
| `Merkle.NodeInputInjective` | crates/checksum/src/merkle.rs:316-326 | node encodings are injective on both children |
| `Merkle.LeafIsNotNode` | crates/checksum/src/merkle.rs:176-191 | no leaf encoding is a node encoding |
| `Merkle.LeafLayout` | crates/checksum/src/merkle.rs:176-191 | the leaf encoding field by field, with domain, version, tags and length prefixes |
| `Merkle.NodeLayout` | crates/checksum/src/merkle.rs:316-326 | the node encoding field by field |
| `Merkle.Tags` | crates/checksum/src/merkle.rs:21-47 | the tags of algorithms and namespaces, and the digest lengths |
| `Merkle.LevelSizes` | crates/checksum/src/merkle.rs:264-268 | level l has n halved l times, rounded up |
| `Merkle.Depth` | crates/checksum/src/merkle.rs:339-341 | the tree has 1 + ceil(log2 n) levels |
| `Merkle.ProofReconstructsRoot` | crates/checksum/src/merkle.rs:360-382 | for each index, folding the proof from its leaf by parity gives the root |
| `Merkle.RootBinding` | crates/checksum/src/merkle.rs:264-326 | equal roots over levels of one length: equal levels, or a collision among the strings hashed |
| `Merkle.ProofBinding` | crates/checksum/src/merkle.rs:352-382 | a proof of the right length that folds another leaf to the root exhibits a collision between a string hashed while folding it and one hashed to build the tree |
| `Merkle.RepeatedLastKeepsRoot` | crates/checksum/src/merkle.rs:307-310 | an odd level and the same with its last node repeated have one root |
| `MerkleTree.CompareOrder` | crates/checksum/src/merkle.rs:238-250 | the comparator is antisymmetric and ties only equal identities |
| `MerkleTree.CompareIs` | crates/checksum/src/merkle.rs:238-250 | the comparator is by normalised value, then namespace, size, content algorithm and content hash, texts by the first byte in which they differ |
| `MerkleTree.AnySortWillDo` | crates/checksum/src/merkle.rs:238-250 | any sort that respects the comparator gives the modelled order |
| `MerkleTree.BuildLevels` | crates/checksum/src/merkle.rs:261-268 | the folding loop terminates with all levels from the leaves to the root |
| `MerkleTree.FromFileHashes` | crates/checksum/src/merkle.rs:225-286 | the tree built from files is the tree of their sorted identities, empty list included: there is an order of the very files given, sorted, in which the i-th file's normalised path, content hash and leaf are the i-th path, hash and leaf of the tree |
| `MerkleTree.OrderIndependent` | crates/checksum/src/merkle.rs:230-259 | every permutation of the files gives identical levels, root, content hashes and paths |
| `MerkleTree.GetProof` | crates/checksum/src/merkle.rs:360-382 | the proof of a file in the tree; none for an index outside it, and none from a tree read back from its root alone |
| `MerkleTree.Binding` | crates/checksum/src/merkle.rs:176-326 | two identity lists of one length with one root are equal, or two different strings hashed for them collide, and are returned |
| `MerkleTree.FilesBinding` | crates/checksum/src/merkle.rs:225-326 | the same from the file lists as given, through normalisation and sorting |
| `MerkleTree.RepeatedFileKeepsRoot` | crates/checksum/src/merkle.rs:301-313 | equal length is needed for that: an odd list and the same with its last file twice are both in tree order with one root |
| `MerklePadding.AnyLengthBinding` | crates/checksum/src/merkle.rs:225-326 | two lists of any lengths with one root agree once the last node of each odd level is repeated, or two different strings hashed for them collide, and are returned |
| `MerklePadding.PaddingDecidesRoot` | crates/checksum/src/merkle.rs:301-313 | and conversely: lists that agree once padded have one root |
| `MerklePadding.DepthBinding` | crates/checksum/src/merkle.rs:176-326 | trees of different depths share a root only through a collision, because a leaf is never a node |
| `MerkleTree.SerialisedReadsBack` | crates/checksum/src/merkle.rs:394-452 | algorithm, count and root read back from `to_bytes` if and only if the count is below 2^32 |
| `MerkleTree.AcceptedBytesRewrite` | crates/checksum/src/merkle.rs:415-452 | `to_bytes` of any accepted buffer is that buffer, and what was read is a root-only tree whose root has the length its algorithm and count call for |
| `MerkleTree.SerialisedBinding` | crates/checksum/src/merkle.rs:394-412 | the stored bytes bind the files with no assumption of equal length, since the count is in them |
| `PluginSessions.SessionStore.CloseSession` | crates/app/src/plugins.rs:1969-1978 | removes a live session, or else a staged one, and reports whether it was there |
| `PluginSessions.SessionStore.StageRemoval` | crates/app/src/plugins.rs:1980-2009 | moves exactly the given sessions from live to staged, records unchanged |
| `PluginSessions.SessionStore.RestoreRemoval` | crates/app/src/plugins.rs:1600-1609 | moves back those of the staged ids still staged, records unchanged |
| `PluginSessions.SessionStore.CommitRemoval` | crates/app/src/plugins.rs:1611-1618 | discards the staged ids and touches no live session |
| `PluginSessions.SessionStore.RegisterSession` | crates/app/src/plugins.rs:1890-1901 | adds a session at revision 1 under its id and touches nothing else |
| `PluginSessions.SessionStore.PublishRevision` | crates/app/src/plugins.rs:2209-2219 | moves a live session to the next revision, with the new root if one was drawn and its own otherwise, and changes nothing else |
| `PluginSessions.EffectsNeedChecks` | crates/app/src/plugins.rs:2073-2219 | an effect comes only from a state past a passed enabled check and leaves it, and only a check that found the plugin enabled leads back |
| `PluginSessions.OnlyPublicationsTouchSessions` | crates/app/src/plugins.rs:1890-1905 | a call changes the session maps only by its one registration or publication |
| `PluginDisable.DisableContains` | crates/app/src/plugins.rs:1207-1221 | after a disable that is not undone, in any run, a call of the plugin has at most one more effect, and none unless it was poised for it; calls that had not started or not learnt their plugin have none; the same of registrations and publications alone |
| `PluginDisable.DisableIsExact` | crates/app/src/plugins.rs:1877-1905 | while its plugin stays disabled a call in flight can have another effect if and only if it is poised for one, and can still register or publish if and only if it stood right before the registration, or right before the publication with its session live |
| `PluginDisable.OwnMove` | crates/app/src/plugins.rs:2073-2219 | a step of a disabled plugin's own call spends what it was poised for and poises it for nothing |
| `PluginDisable.BoundaryStops` | crates/app/src/plugins.rs:2072-2207 | at each of the seven boundaries a call gives up if and only if its plugin is disabled, leaving the sessions alone and releasing its lock |
| `PluginDisable.DisabledNeverQueues` | crates/app/src/plugins.rs:2073-2081 | while a plugin stays disabled no dispatch of it comes into the lock's queue |
| `PluginDisable.FlagIsLastToggle` | crates/app/src/plugins.rs:1207-1221 | in every run a plugin is enabled if and only if its last toggle enabled it |
| `PluginDisable.ForeignLeavesSession` | crates/app/src/plugins.rs:2077-2122 | while a dispatch holds its lock, no other step publishes to its session or brings it back |
| `PluginProgress.DisableCanBeLate` | crates/app/src/plugins.rs:2203-2219 | for every plugin a run from the empty store in which the plugin is disabled and a dispatch at its last boundary still publishes |
| `PluginRuns.EveryRun` | crates/app/src/plugins.rs:1599-2219 | the invariant holds over all interleavings of open, dispatch, close, stage, restore, commit and enable or disable |
| `PluginRuns.RevisionNamesOneDocument` | crates/app/src/plugins.rs:1921-1943 | one (session, revision) pair never names two documents, and served revisions never go back |
| `PluginRuns.DispatchLosesNoUpdate` | crates/app/src/plugins.rs:2077-2219 | a publishing dispatch finds its expected revision, is the first from it, yields the next one, changes no other session and never a staged one |
| `PluginDocuments.PublicationServesWhatWasDrawn` | crates/app/src/plugins.rs:2160-2222 | in every run a publication serves, as the next revision and as `document` returns it, the root of the last layout that came back to this dispatch if the guest asked for a refresh and the old root otherwise; before it the event was sent, and fetch and layout were made if and only if the guest asked for them |
| `PluginDocuments.RegistrationServesWhatWasDrawn` | crates/app/src/plugins.rs:1878-1905 | an open registers, at revision 1 under the plugin asked for, the root of the layout that came back |
| `PluginDocuments.EveryCallCarries` | crates/app/src/plugins.rs:2054-2222 | in every run each call carries what its last replies said, has done exactly what they asked for so far, and has returned a success if and only if it registered or published |
| `PluginDocuments.EventsAreAdmitted` | crates/app/src/plugins.rs:2086-2102 | no event reaches the guest before the session was found at the expected revision with its target neither hidden nor disabled |
| `PluginProgress.UndisturbedDispatchSucceeds` | crates/app/src/plugins.rs:2054-2222 | left alone at the current revision with its plugin enabled and guest calls that succeed, a dispatch publishes the next revision within its fifteen steps, whether or not its fetch succeeds |
| `PluginProgress.WaitsOnlyForHolders` | crates/app/src/plugins.rs:1644-1651 | in every run, after any failures, dropped calls and finished removals, an enabled dispatch waits for its lock if and only if another dispatch in flight of the same identity or an unfinished removal of it has the lock |
| `PluginProgress.DroppedIsOver` | crates/app/src/plugins.rs:2077-2122 | a dispatch that is dropped is over, leaves sessions and documents alone and holds no lock any more |
| `PluginRuns.IdsAreNeverReused` | crates/app/src/plugins.rs:1890-1901 | a registration takes an id that no session has or ever had |
| `PluginRuns.ClosedStaysClosed` | crates/app/src/plugins.rs:1969-1978 | a session closed, or discarded by a commit, never reappears, and live and staged ids stay disjoint |
| `PluginRuns.StagingIsExact` | crates/app/src/plugins.rs:1980-2009 | staging takes exactly the plugin's sessions as they are and no other |
| `PluginRuns.RestoreIsExact` | crates/app/src/plugins.rs:1599-1626 | restore or drop returns exactly the staged sessions not closed meanwhile, records unchanged |
| `PluginRuns.CommitIsExact` | crates/app/src/plugins.rs:1611-1618 | commit discards exactly those, and leaves live sessions and other removals alone |
| `Release.Publisher.ReplaceOnCodeberg` | just/release.py:301-309 | per file, deletes its listed namesakes and uploads it, up to the stop |
| `Release.Publisher.ReplaceOnGithub` | just/release.py:310-311 | per file, replaces its namesake, up to the stop |
| `Release.Publisher.Publish` | just/release.py:265-316 | a run carries out the plan made from what it reads first, or the part before the stop; it succeeds exactly when its guards pass and nothing stops it |
| `Release.LiveNeverChanges` | just/release.py:270-271 | from any state and for any artifacts, wherever it stops, a run leaves a live host's assets alone |
| `Release.DisagreementStops` | just/release.py:272-300 | a run whose names or SHA256SUMS disagree with a live host changes neither host; one that finds an asset in a draft that is not of the release creates what is missing and changes nothing else; any other run has something to change unless both hosts are live |
| `Release.SumsLine` | just/release.py:161-162 | the checksum file has one line a file: its digest, two spaces and its name |
| `Release.FillCodebergPuts` | just/release.py:301-309 | deleting by the ids of one early listing replaces each file's namesakes exactly, because the listing stays right for the files to come |
| `Release.FilledDraft` | just/release.py:299-311 | a draft without foreign names, once filled, holds exactly the files in order |
| `Release.GoesLiveOnlyWhenBothHold` | just/release.py:312-316 | a host goes live only at a moment when both hold every file of the release |
| `Release.CompletesExactlyWhenAccepted` | just/release.py:265-316 | unless both are live already, an uninterrupted run ends with both live if and only if its guards passed, each host it filled holding exactly the files |
| `Release.SumsBind` | just/release.py:161-165 | with equal checksum files two collected releases are equal, or two files with one digest are named |
| `Release.LiveHostsAgree` | just/release.py:269-283 | over any attempts with whatever artifacts, each stopped anywhere, two live hosts hold the same files, or at one position hold different files with one digest |
| `Release.RetriesConverge` | just/release.py:265-316 | from no release, after any stopped retries of one set of artifacts a live host holds exactly the files, and one uninterrupted run leaves both live with exactly them |
| `SecretStore.DropIsExact` | just/secret.py:159-162 | renumbering after a delete gives exactly the index of the lines left |
| `SecretStore.SkippedIs` | just/secret.py:102-103 | a line is passed over if and only if it is blank or its first character that is not a space is `#` |
| `SecretStore.EntryIs` | just/secret.py:106-111 | a line is an entry if and only if it is a name, `=` and a value, and these are what is read from it |
| `SecretStore.NameIs` | just/secret.py:87-90 | a name is not empty, has only A to Z, 0 to 9 and `_`, and does not begin with a digit |
| `SecretStore.StripCuts` | just/secret.py:102-110 | stripping cuts all spaces at both ends and nothing else |
| `SecretMap.NamesAreOrdered` | just/secret.py:133-134 | `names()` is the names of the entries in line order, each once |
| `SecretMap.AnySequence` | just/secret.py:93-162 | after any puts and deletes the index is right, the entries are those of the ordered map, and every line not under a touched name keeps text and order |
| `SecretFile.BuildIndex` | just/secret.py:97-116 | the indexing loop gives the index of the lines, or the first bad line by number with its reason |
| `SecretFile.ParseAccepts` | just/secret.py:97-116 | a file is accepted if and only if its lines make a valid store and every entry has a value |
| `SecretFile.WhyRefused` | just/secret.py:101-115 | a refusal names the first bad line by number and the first thing wrong with it: a NUL, no NAME=value, no value, or the line that already had the name; all lines before it are good |
| `SecretFile.WhyNotLoaded` | just/secret.py:117-131 | no file makes an empty store, undecodable bytes are refused as such, and text is refused exactly for a bad line |
| `SecretFile.TranslateBreaks` | just/secret.py:119-128 | CR LF and a lone CR are one line break each, wherever they stand |
| `SecretFile.MarkIsDropped` | just/secret.py:119-131 | one byte order mark in front is not part of the lines |
| `SecretFile.LoadThenSave` | just/secret.py:117-131 | saving a loaded file unchanged writes its text with LF line ends, a final one, and no mark |
| `SecretFile.SaveThenLoad` | just/secret.py:164-183 | loading what was saved gives the same lines and index if and only if no value is blank |
| `SecretFile.PutThenReload` | just/secret.py:140-157 | a put on a loadable store leaves a loadable file if and only if the value is not blank |
| `SecretFile.AnySession` | just/secret.py:93-183 | a file that loads still loads, as exactly the saved store, after any operations with checked values |
| `SecretFile.CallerValuesFit` | just/secret.py:186-199 | what prompt, pipe and import accept is exactly a non-blank text whose stripped form `put` accepts; otherwise several lines, a NUL and text that cannot be encoded are told apart in that order |
| `SecretFile.PromptValue` | just/secret.py:294-305 | the prompt takes the first answer that is not blank, stripped and checked, and no earlier one |
| `SecretFile.Store.Names` | just/secret.py:133-134 | the entry names in file order |
| `SecretFile.Store.Get` | just/secret.py:136-138 | the map's value for the name, or none |
| `SecretFile.Store.Put` | just/secret.py:140-157 | the specified step, refused exactly for a bad name or value, and whether it replaced |
| `SecretFile.Store.Delete` | just/secret.py:159-162 | the specified step, and whether the name was there |
| `SecretFile.Store.Save` | just/secret.py:164-183 | the text written can be encoded, and loads as this store if and only if no value is blank |
| `SecretFile.StoreValues` | just/secret.py:322-324 | all puts, then one save of the result; it saves if and only if every put is accepted, and otherwise stops at the first refused one with nothing saved |
| `SecretFile.Import` | just/secret.py:369-382 | all or none: a missing, blank or unfit variable leaves the store alone; otherwise every value is put and the saved file loads as the store |

## Left out

- Memory orderings weaker than interleaved single loads and stores: the `Liveness` atomics are modelled as sequentially consistent steps.
- LivenessRates.WindowsTelescope: states the byte half for totals within 64 bits, as the counter would otherwise wrap.
- Liveness.QuietPollDecides: is stated for clocks below 2^64 - 1 milliseconds, where the mark of a wait cannot be mistaken for "not waiting".
- Liveness.StallIsSound: says nothing for a `stall_timeout` of zero milliseconds, where every poll with an outstanding request fires.
- LivenessRates.TrickleIsConservative: takes the 64-bit byte counter as not wrapping; the wait counter is proved not to wrap.
- That every hung worker is killed: after end of file the reader no longer waits, so the code does not decide it.
- Process spawning, exit polling, pipes, thread joins and the poisoning of locks: frames arrive, the channel ends, the child exits, as steps.
- The zip, 7z and rar decoders, source verification and resource limits: a decode is a list of emits and an answer to each check around it.
- JSON is an abstract codec with read-after-write; `usize` is taken as 64 bits wide.
- Error detail beyond the error kind, and what a session does after its first error, except that DECODE is not sent again.
- Progress.EverythingArrives: is stated from the decode on; `WholeWay.EveryJobArrives` includes the opening.
- CRC32, XXH3 and SHA-256 themselves, and `verify_file`: the digest is any function with the algorithm's output length.
- Session ids and revisions are unbounded; the source's 64-bit counters would wrap after 2^64 sessions or publications.
- Guest calls, layouts, fetches and intents are replies of an oracle; page-init refreshes are the oracle's refresh choice; extension points and pinned archives do not affect the store.
- Release.Publisher.ReplaceOnGithub: replaces file by file in order, where the `gh` command may upload several at once.
- HTTP, the `gh` and `git` commands, notes, tags and commits in `publish`; two publishers at the same time; a host changed by somebody else during a run.
- UTF-8 itself: the secret file is its decoded text, and writing fails exactly on a lone surrogate.
- The atomic rename and permissions of `Store.save`; `getpass`, the console reader, the registry and the `run` command of the secret tool.
- Layout, settings and organisation conversions, the CLI, the UI and the build scripts are not part of this model.
