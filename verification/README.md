# A model of leser's storage core

leser accepts Sentry events over HTTP and keeps them with in-process modules where other systems use Kafka,
ClickHouse and Redis. Its central promise is that an event answered with 200 is never lost, and that a query sees
exactly what was stored. This project states that promise over the modules that carry it and proves it.

| files | what they model |
|---|---|
| `Bytes`, `Segment`, `Wal`, `WalLog`, `WalRuns`, `Interval` | the write-ahead log: framing, batches, rolls, recovery, whole runs with crashes; what is on stable storage, and SyncInterval |
| `Reader`, `Consumer` | consumers: cursors, committed offsets, retention |
| `Tail`, `TailRuns`, `CatchUp`, `TailSessions` | the read-only attach that follows another process's files: soundness, catching up, its readers |
| `Dedupe`, `Pipeline`, `PipelineLosses`, `Replays`, `Duplicates`, `Draining` | the ingest pipeline: submit, consume, dedupe, store, flush, commit, crash, replay; the runs that lose an event, and replays that do not; how far apart duplicates are; that it gets through its log |
| `Node`, `EndToEnd` | the pipeline over the write-ahead log, the event store's writes and the envelope parser |
| `Rows`, `Store`, `Compaction`, `EventStore`, `Aggregate`, `Hll` | the event store: hot buffer, segments, flushes, pruned scans, aggregation, user sketches |
| `Issues` | issue upsert, merge, split and status |
| `Ring` | consistent hashing and the routing decision |
| `Envelope` | the envelope parser |
| `Glob`, `Lru`, `RateLimit` | `**` matching, the byte-bounded cache, token buckets |
| `Base`, `Runs`, `Sorting` | options; finite runs of a transition relation; sorting by comparison and the order of strings |

`dafny verify dfyconfig.toml` checks everything.

## How it is modelled

Files are byte sequences with a synced length. A power loss keeps the synced prefix and any prefix of the rest, and may
lose a file that was never synced; a write either completes or the process dies during it. CRC32C, the hashes, the JSON
codecs, the pattern syntax of `path.Match` and the Parquet writer are function parameters with stated contracts: a
pattern is a list of stars and one-character tests, Bloom filters have no false negatives, a segment keeps its rows in
order, and tmp-then-rename is atomic. Clocks, map iteration orders, directory listings and injected faults are
parameters. Integers are unbounded except where the code's width matters: the 32-bit length field, 64-bit offsets and
timestamps on disk, the 32-bit hash circle.

Objects that the program updates in place (`Log`, `Reader`, `Store`, `DB`, `Ring`, `Membership`, `LRU`, `Limiter`, the
dedupe set, the register array of a sketch) are classes whose methods are proved against functions on values; what holds
over whole runs is proved of those functions. Concurrency is modelled as steps that interleave in every order: the WAL
writer and crashes (`WalRuns`), a reader and the writer (`Consumer`), a tailing process and the owner down to the bytes
(`TailRuns`), the pipeline with its log, buffer, flush, offset file and crashes (`Pipeline`), and the two together (`Node`).

## Where the promise has edges

- **What the no-loss theorem is spared.** `Pipeline.NoEventLost` speaks of every run in which three things do not
  happen. The code rules out none of them; each loses an acknowledged event in a run from the first start, and for each
  the condition is exact:
  - a crash that leaves the log behind the committed offset, possible because readers see records before their fsync
    (`PipelineLosses.PowerLossLosesEvent`). From every good state a crash is safe, however the run goes on, if and only
    if the log is left no shorter than the committed offset (`PipelineLosses.LoseSafeIff`). A process kill always leaves
    it so, and a power loss does when the committed offset is on stable storage (`Node.NodeLosesNothing`);
  - a file written over a path that an earlier lifetime used, possible because `flushCount` restarts at zero
    (`PipelineLosses.PathReuseLosesEvent`). It is safe if and only if what the replaced rows account for is accounted
    for without them (`Pipeline.WriteGoodIff`): enough is a stand-in for each (`Pipeline.StoodInIsSpared`), or that they
    come from records at or past the offset at which the lifetime started, as in a replay after a crash between flush
    and commit (`Replays.ReplaysAreSpared`, `Replays.ReplayOverOwnPath`). Within a lifetime freshness is proved;
  - a cancellation inside the append loop, which drops an event that is already marked as seen while the shutdown commit
    passes it (`PipelineLosses.CancelLosesEvent`). It is safe, however the run goes on, if and only if every event it
    leaves out is accounted for (`PipelineLosses.AbandonSafeIff`).
- **A flush over used paths.** `EventStore.EventStore.Flush` shows the same rows as before if and only if no file in the
  manifest is replaced by other rows (`Compaction.Harmless`), which a caller can see from the paths, the files and the
  buffer. A path that is in use but not registered, or whose file already holds the very rows that are written, is
  harmless; so being unused is sufficient but not necessary. Otherwise the store holds the flushed rows and what the
  replaced files now hold, and `Scan` reads of it what the entries as they were let it: a stale time bound can hide a
  replaced file. After a crash between flush and commit, replay can hit the same path: open has registered it, the flush
  registers it again, and its rows are shown twice (`EventStore.ReusedPath`).
- **A refresh after a flush.** From a state in which every file is known and on unused paths, a `Refresh` after a
  `Flush` adds nothing if and only if every partition was written or the first one failed; otherwise it adds the rows of
  the partitions written before the first fault once more (`EventStore.EventStore.FlushThenRefresh`, at two partitions
  `EventStore.SecondPartitionFails`). Another process, which has no buffer, comes to see them twice when the flush is
  retried (`EventStore.RetryLeavesTwice`).
- **SyncInterval** acknowledges before the fsync. The first batch of a lifetime and every batch that its timer ends are
  synced first all the same (`Interval.TimedBatchIsStored`); only a batch that fills up within a window of the last sync
  is not. A record outlives every crash if and only if a sync has followed its write (`Interval.DurableIffSynced`,
  `Interval.BatchDurableIff`). The documented loss window, "up to BatchWindow of acknowledged appends", is right as a
  bound on what can be lost: all of it was acknowledged within one window after the last sync
  (`Interval.LossWithinOneWindow`). It is wrong as a bound on how long: no timer syncs, so without further appends an
  acknowledged record stays at risk for ever (`Interval.FullBatchIsLost`); `Interval.WindowHoldsIff` gives the exact
  condition.
- **A lone segment with a torn header and a non-zero base** is replaced by an empty log at offset 0:
  `Wal.LoneTornHeaderRestarts`; `WalRuns.LoneTornHeaderReached` is a run that gets there. Every other damage is
  recovered.
- **The envelope size limit.** How far the buffered reader runs ahead of the parser decides whether an envelope above
  the limit is noticed. It is refused under every buffering if and only if it does not reach the limit within a blank
  line (`Envelope.RefusedIff`); otherwise it can be accepted, and what lies beyond the limit is dropped unread
  (`Envelope.BlankAtLimit`, `Envelope.OversizedAccepted`).
- **Tied ring points.** `Ring.MovementIffSettled` gives the exact condition for a key to move only from or to the node
  that changed.
- **Shown counts.** Merging an already merged or repeated source, or splitting, counts hits twice.
  `Issues.CountsConserved` gives the exact condition for the counts to equal the hits.
- **Rate limiting over the tracking cap.** The comment on `New` says the default limit is applied; the code admits every
  request of a project that has no bucket when the cap is reached. `RateLimit.BoundedIffRoom` gives the exact condition.
  The model follows the code.

## Model

| member | source | states |
|---|---|---|
| Segment.ScanInvertsEncode | internal/wal/segment.go:116-164 | inside any surrounding bytes scanRecord returns exactly the record appendRecord wrote and the position after it, if and only if the record is within the size limits |
| Segment.CutIsTorn | internal/wal/segment.go:135-164 | a record cut anywhere before its end never scans, whatever the checksum function |
| Segment.CrashAtEveryByte | internal/wal/segment.go:170-186 | for every list of records and every cut at or past the header, the scan counts exactly the records that end at or before the cut and returns the position after the last |
| Segment.CompleteUnique | internal/wal/segment.go:170-186 | only one number of records ends at or before a given byte |
| Segment.ReadHeaderOfImage | internal/wal/segment.go:84-113 | a segment header that survives reads back as its base offset |
| Segment.HeaderIs | internal/wal/segment.go:101-113 | and nothing else reads as that base: bytes are a header for it exactly when they are the ones written for it |
| Segment.ScannedIsEncoded | internal/wal/segment.go:135-164 | whatever scans is the encoding of a record within the limits, and the checksum stored is that of its body |
| Segment.AppendRecord | internal/wal/segment.go:116-130 | the reused or regrown buffer holds exactly the encoding of the record |
| Segment.ScanSegment | internal/wal/segment.go:170-186 | the counting loop computes the scan the crash theorem is about |
| Bytes.GetPut32 | internal/wal/segment.go:116-130 | the 32-bit length field holds a number exactly when it is below 2^32 |
| Bytes.Int64Field | internal/wal/segment.go:116-164 | a signed 64-bit value survives its unsigned field |
| Bytes.PutGet | internal/wal/segment.go:116-164 | writing back a number read from bytes yields the bytes |
| Wal.SyncKeepsInv | internal/wal/wal.go:366-385 | syncing the active file keeps the log invariant and leaves nothing unsynced |
| Wal.CreateKeepsInv | internal/wal/wal.go:391-406 | starting a segment keeps the invariant, provided the old one was synced first |
| Wal.WriteKeepsInv | internal/wal/wal.go:354-364 | writing one record appends it to the logical log and keeps the invariant |
| Wal.AckKeepsInv | internal/wal/wal.go:373-387 | once the active file is synced every record written may be acknowledged |
| Wal.CrashKeepsDamaged | internal/wal/wal.go:166-252 | any further crash of a damaged directory leaves one that recovery still accepts |
| Wal.ProbePrefix | internal/wal/wal.go:186-213 | scanning any surviving prefix of a segment with its header finds its complete records and their size |
| Wal.LoadRecovers | internal/wal/wal.go:166-252 | after any crashes open succeeds with a prefix of the writes that contains every acknowledged record, and the log invariant holds again |
| Wal.LoadAcceptsIff | internal/wal/wal.go:186-232 | open accepts a directory if and only if every file but a torn last one has its own header and each segment ends where the next begins; nothing is skipped |
| Wal.LoadKeepsOldest | internal/wal/wal.go:186-252 | what open recovers begins with the same oldest segment |
| Wal.LoneTornHeaderRestarts | internal/wal/wal.go:214-223 | the one exception, for all inputs: a lone torn header past offset 0 yields an empty log, so acknowledged records are not recovered |
| Wal.LoadNothing | internal/wal/wal.go:174-223 | an empty directory or a lone torn first segment opens as a fresh log at offset 0 |
| Wal.BatchKeepsSizes | internal/wal/wal.go:343-350 | whatever is appended in whatever batches, a segment of more than one record stays within the size limit |
| Wal.RollsWhenFull | internal/wal/wal.go:343-350 | a batch rolls only when it must: each segment it seals has records and no room for the next one, and no other segment changes |
| WalLog.Log.Roll | internal/wal/wal.go:391-406 | the old segment is synced before the new one exists |
| WalLog.Log.WriteOne | internal/wal/wal.go:338-371 | one record is appended, rolling first exactly when it would overflow a non-empty segment, and gets the next offset |
| WalLog.Log.Gather | internal/wal/wal.go:293-318 | a batch is what arrives until it is full or its timer fires; no shorter part of it was full; under SyncAlways it is one record |
| WalLog.Log.WriteBatch | internal/wal/wal.go:335-387 | a batch gets consecutive offsets and leaves the state the run theorems speak of, synced as the policy says; under SyncInterval the first batch after open is always due, later ones by the time since the last sync |
| WalLog.Log.Append | internal/wal/wal.go:259-289 | an oversized record is refused with nothing written; any other is appended at the next offset |
| WalLog.CollectSegments | internal/wal/wal.go:186-213 | the loop over the listed files tolerates a torn header only in the last one |
| WalLog.ChainHolds | internal/wal/wal.go:224-232 | the check accepts exactly gapless hand-offs |
| WalLog.OpenLog | internal/wal/wal.go:139-252 | open with load computes the recovery function, including the truncation of the torn tail |
| WalRuns.ReopenRecovers | internal/wal/wal.go:166-252 | re-opening after a crash never reports corruption, recovers a prefix holding all acknowledged records, and the next offset is its length |
| WalRuns.AckedForever | internal/wal/wal.go:335-406 | in every run of writes, rolls, retention, power losses and re-opens, each record acknowledged once synced stays at its offset; under SyncBatched and SyncAlways that is each record acknowledged |
| WalRuns.BatchIsRun | internal/wal/wal.go:335-387 | the system calls of a batch form such a run, after which acknowledging all of it is sound |
| WalRuns.StepIsLogStep | internal/wal/wal.go:166-252 | to the rest of the system the log only stays, grows by a record, is acknowledged further, or is cut back to no less than what was acknowledged |
| WalRuns.CreatedIsGood | internal/wal/wal.go:174-183 | the first open of an empty directory starts such runs |
| WalRuns.RetainKeepsInv | internal/wal/retention.go:36-58 | deleting the oldest of several segments keeps the log invariant |
| WalRuns.LoneTornHeaderReached | internal/wal/wal.go:214-223 | a run of write, sync, acknowledge, roll, retention and power loss from the fresh log reaches the lone torn header, with an acknowledged record that open does not recover |
| Interval.SurvivesIff | internal/wal/wal.go:166-252 | a record outlives every crash that open recovers from if and only if its bytes were synced |
| Interval.DurableIffSynced | internal/wal/wal.go:335-406 | in every run of system calls a record outlives every crash if and only if a sync came after its write; rolls sync too |
| Interval.BatchDurableIff | internal/wal/wal.go:373-385 | under SyncInterval a record just acknowledged is durable if and only if the clock test was met or a later record of its batch rolled the segment |
| Interval.TimedBatchIsStored | internal/wal/wal.go:293-318 | under SyncInterval the first batch after open, and every batch that its timer ended, is on stable storage when it is acknowledged |
| Interval.LossWithinOneWindow | internal/wal/wal.go:30-33 | in every run of a lifetime, what a crash can take after the first batch was acknowledged within one BatchWindow after the last sync |
| Interval.OpenedIsGood | internal/wal/wal.go:134-134 | every log just opened, which has not synced yet, starts such runs |
| Interval.WindowHoldsIff | internal/wal/wal.go:30-33 | everything acknowledged at least BatchWindow ago outlives a crash now if and only if everything is on stable storage or the oldest record that is not is younger than that |
| Interval.FullBatchIsLost | internal/wal/wal.go:378-384 | from a fresh log: the first batch is synced, a second fills up at once and is acknowledged unsynced, and however long nothing more is appended a power loss takes it |
| WalRuns.KillKeepsWrites | internal/wal/wal.go:354-364 | after a process kill every completed write is recovered, whatever the policy |
| WalRuns.KilledIsDamaged | internal/wal/wal.go:354-364 | a killed process leaves a directory from which recovery must find every completed write |
| Reader.SegmentForFinds | internal/wal/wal.go:429-437 | in a gapless list, repeated empty entries included, every offset from the oldest to the end is in a segment that is found |
| Reader.SegmentForUnique | internal/wal/wal.go:429-437 | the segment found is the only one that contains the offset |
| Reader.NextReads | internal/wal/reader.go:72-141 | over any gapless segment list whose files begin with their records, one call of Next from any position at or past the oldest returns the record appended at that offset, or no record at the head, and keeps the cursor right |
| Reader.InvReadable | internal/wal/wal.go:335-406 | the owner's log is such a log at every moment, and its next offset is the number of records |
| Reader.SkipReaches | internal/wal/reader.go:127-141 | skipping ahead stops at the byte position of the target record |
| Reader.CursorFrame | internal/wal/reader.go:100-124 | an open cursor stays right while the log grows |
| Reader.OffsetRoundTrip | internal/wal/reader.go:202-239 | a committed offset is read back as it was written |
| Reader.OffsetFileIs | internal/wal/reader.go:226-239 | an offset file is accepted as a number if and only if it is what is written for that number |
| Reader.NewReaderStarts | internal/wal/reader.go:45-68 | a reader resumes at the stored offset, or at the oldest retained one if that is later; a new name starts at the oldest |
| Consumer.LogReader.FindSegment | internal/wal/wal.go:429-437 | the binary search finds what the linear definition finds |
| Consumer.LogReader.Skip | internal/wal/reader.go:127-141 | the scanning loop computes the skip |
| Consumer.LogReader.Advance | internal/wal/reader.go:72-124 | Next as a method on the reader's fields computes the function the theorems are about |
| Consumer.LogReader.Commit | internal/wal/reader.go:161-172 | the position becomes the committed offset and what is stored decodes to it |
| Consumer.ApplyRetention | internal/wal/retention.go:26-60 | a prefix of the sealed segments goes, each deletable when its turn came, none of them needed; it stops only at the active one, a failed removal, or one that is needed or both within the size and young enough; a file that cannot be opened is not too old |
| Consumer.NewestOfSegment | internal/wal/retention.go:62-87 | the time taken for a stored segment is that of its last record |
| Consumer.Attach | internal/wal/reader.go:45-68 | a missing offset file makes a new consumer, one that does not decode is an error, any other is resumed |
| Consumer.ResumesAtCommit | internal/wal/reader.go:45-68 | in every run a restarted reader, after a crash and recovery of the log or without one, goes on at the last committed offset, or at the oldest retained one if that is later; never committed, at the oldest |
| Consumer.NeverRefused | internal/wal/reader.go:202-239 | in every run what Commit stored is accepted by the next reader |
| Consumer.ReadsInOrder | internal/wal/reader.go:72-141 | whatever appends, rolls, commits, retention within the committed offset, crashes, re-opens and restarts happen in between, each reader is given exactly the records at consecutive offsets from where it started: no gap, repeat or mix-up; and retention stays within the commit |
| Consumer.NewReaderIsGood | internal/wal/reader.go:45-68 | NewReader over a running log, with or without a stored offset, starts such a run at the position it chose |
| Tail.RefreshSound | internal/wal/wal.go:487-570 | each step of Refresh keeps the view contiguous and within the visible records, never fails, and never moves the next offset back; that it gets anywhere is `CatchUp.RefreshCatchesUp` |
| Tail.GrowthKeepsReader | internal/wal/wal.go:391-406 | what a half-done Refresh knows stays right while the owner writes, rolls and restarts |
| TailRuns.OwnerShows | internal/wal/wal.go:335-406 | at every byte the owner has made visible, its files show what the tailing process relies on |
| TailRuns.TailSound | internal/wal/wal.go:487-570 | in every interleaving of listing, probes, partial writes, rolls and restarts of the owner the attached view is a contiguous prefix of the records written, its next offset never decreases and the corruption error never fires |
| TailRuns.AttachIsGood | internal/wal/wal.go:166-169 | attaching before anything was written is a sound start |
| TailRuns.RestartKeepsOk | internal/wal/wal.go:186-252 | a killed and restarted owner truncates a partial record or removes a last file with a torn header, and keeps exactly the visible records |
| TailRuns.TailReads | internal/wal/reader.go:72-141 | in every state of such a run a reader over the attached log gets, before its next offset, exactly the record the owner wrote at its position |
| TailSessions.TailReadsInOrder | internal/wal/reader.go:72-141 | whatever the owner writes, rolls and restarts and the attached process refreshes, commits, reads and restarts in between, the reader is given exactly the owner's records at consecutive offsets from where it started, and none of them ever changes |
| TailSessions.NewTailReaderIsGood | internal/wal/reader.go:45-68 | NewReader over an attached log starts such a run at the position it chose |
| TailSessions.TailResumes | internal/wal/reader.go:45-68 | in every run a process that attaches again is not refused and reads on at the last committed offset, or from the first record without one |
| CatchUp.PassEnds | internal/wal/wal.go:487-570 | the pass of Refresh under way ends within the steps its listing allows |
| CatchUp.RefreshCatchesUp | internal/wal/wal.go:487-570 | from every state of every run, if the owner is still, the pass under way and one more, in a bounded number of steps, bring the next offset to the number of records completely written |
| TailSessions.AllVisibleDelivered | internal/wal/reader.go:72-141 | so refreshing and reading give the reader every record completely written from where it started, none withheld |
| Pipeline.FrameRoundTrip | internal/ingest/pipeline.go:142-163 | process reads back the kind, project and body Submit framed |
| Pipeline.UnframeTotal | internal/ingest/pipeline.go:267-274 | exactly the records shorter than the frame are refused |
| Pipeline.Extract | internal/ingest/pipeline.go:280-312 | every event item of an envelope is either returned or counted as malformed; an unreadable record counts once |
| Pipeline.RecordEvents | internal/ingest/pipeline.go:280-312 | what each kind of record yields: the events of an envelope, one event, or none when it does not decode or its kind is unknown |
| Pipeline.ItemEventsAre | internal/ingest/pipeline.go:288-301 | the events of an envelope are those of its event and transaction items that decode, each once and in order, under their own id or else the envelope's |
| Pipeline.KnownIsHeld | internal/ingest/pipeline.go:315-318 | a key the duplicate filter knows belongs to a row with that project and id that is on disk, buffered or being flushed; that such a row is not stored again is `Duplicates.DuplicatesAreFar` |
| Pipeline.CommitKeepsGood | internal/ingest/pipeline.go:194-203 | the offset moves only when every event before it is on disk |
| Pipeline.WriteAdds | internal/eventstore/store.go:363-364 | within a lifetime the next file's path is free, so writing it only adds to what the lifetime wrote |
| Pipeline.WriteGoodIff | internal/eventstore/store.go:363-364 | writing a partition keeps the promise's invariant if and only if every row it replaces is dispensable: what it accounts for among the events committed or dealt with is accounted for without it |
| Pipeline.StoodInIsSpared | internal/eventstore/store.go:363-364 | it is enough that each row replaced has a stand-in, a row of the same event id or of the same record and place, among the rows written or in another file |
| Pipeline.AbandonGoodIff | internal/ingest/pipeline.go:314-338 | giving up the append loop keeps the invariant if and only if every event it leaves out is accounted for |
| Pipeline.StartKeepsGood | internal/wal/reader.go:45-68 | a new lifetime starts reading at the committed offset |
| Pipeline.NoEventLost | internal/ingest/pipeline.go:168-355 | after every run of submits, reads, dedupe, appends, failed and successful flushes, commits, crashes and restarts that is spared the three things above, each excluded under its exact condition only, each event of each record below the committed offset has a row with its project and id on disk (its own row if it has no id), every disk row carries the project and the fields of an event of its record, and every acknowledged record is still in the log at its offset |
| Pipeline.EmptyIsGood | internal/ingest/pipeline.go:118-131 | the first start satisfies the invariant |
| Duplicates.DuplicatesAreFar | internal/ingest/pipeline.go:314-318 | in every run, spared or not, if a lifetime takes two rows of the same project and non-empty id, it accepted at least cap ids between them; what is in memory and in its files is among the rows it took, in memory each once and in order |
| Duplicates.OneRowPerEvent | internal/ingest/pipeline.go:442-473 | so a lifetime that took at most cap rows with an id has one row of each event in its flush, buffer, append loop and files |
| Draining.Drains | internal/ingest/pipeline.go:168-211 | nothing is stuck: from every good state with a consumer, steps of its own lead to a state in which the whole log is committed and every event of it is on disk |
| Draining.MemoryBounded | internal/eventstore/store.go:270-281 | in every run buffer and flush together never hold more rows than the buffer may |
| Draining.StoresIffRoom | internal/ingest/pipeline.go:320-337 | a row goes into the buffer exactly when there is room, else a flush of all of it begins |
| PipelineLosses.CancelLosesEvent | internal/ingest/pipeline.go:314-338 | from the first start, a run in which a full buffer's flush fails and the context is cancelled in the append loop ends with a second acknowledged record committed and its event not on disk |
| PipelineLosses.ShutdownBringsNothing | internal/ingest/pipeline.go:194-211 | whatever flushing and committing follows a cancellation, after a failed or a successful flush, the dropped event is on disk only if a row for it was on disk or in memory before |
| PipelineLosses.AbandonSafeIff | internal/ingest/pipeline.go:314-338 | after a cancellation no acknowledged event is ever lost, however the run goes on, if and only if every event it leaves out is accounted for |
| PipelineLosses.CanCommit | internal/ingest/pipeline.go:194-211 | between records a commit is always possible, whatever files are on disk, and brings nothing new to disk |
| PipelineLosses.LoseSafeIff | internal/wal/reader.go:45-77 | from every good state, after a crash no acknowledged event is ever lost, however the run goes on, if and only if the log is left no shorter than the committed offset |
| PipelineLosses.PowerLossLosesEvent | internal/wal/reader.go:45-77 | from the first start, a run with a power loss behind the committed offset ends with an acknowledged record below that offset whose event is not on disk |
| PipelineLosses.PathReuseLosesEvent | internal/eventstore/store.go:363-364 | from the first start, two lifetimes that write the same partition, first timestamp and number end with a committed event not on disk |
| Replays.ReplaysAreSpared | internal/eventstore/store.go:363-364 | every run in which files replace only rows of records at or past the offset where the lifetime started is one that loses nothing |
| Replays.NoEventLostInReplays | internal/ingest/pipeline.go:168-355 | so from the first start every such run keeps each event of each record below the committed offset on disk |
| Replays.ReplayOverOwnPath | internal/ingest/pipeline.go:194-203 | a run that crashes between flush and commit, replays onto the same path and commits is such a run |
| Node.NodeLosesNothing | internal/wal/wal.go:335-406 | every run of the log and the pipeline together, with rolls, retention within the committed offset, process kills at every byte, power losses that leave the committed offset on stable storage, and re-opens, is a run of the pipeline that loses nothing; the logs stay the same and the oldest offset is that of the first segment |
| Node.KillReopens | internal/wal/wal.go:166-252 | after a process kill, in the middle of a record or of a segment header, the next open succeeds with every completed write |
| Node.ReopenReaches | internal/wal/wal.go:166-252 | re-opening recovers at least the records below the committed offset and keeps the oldest segment |
| Node.FirstStartIsGood | internal/wal/wal.go:174-183 | the first start of both begins such runs |
| Node.StartIsNewReader | internal/wal/reader.go:45-68 | in every run a lifetime of the pipeline starts where NewReader puts its reader, over the log as it is and with the offset committed |
| EndToEnd.WritesArePipelineSteps | internal/eventstore/store.go:320-332 | the event store's writes, in its order and under its paths, are the pipeline's flush steps, up to whichever partition fails |
| EndToEnd.PartIsContent | internal/eventstore/store.go:355-415 | the file the event store builds for a partition holds the events of exactly the rows the pipeline writes there |
| EndToEnd.PrintedEvents | internal/ingest/pipeline.go:280-301 | the record made of a printed envelope has that envelope's events |
| EndToEnd.SentEventStored | internal/ingest/pipeline.go:142-355 | after every spared run each event with an id of each envelope submitted below the committed offset has a row with its project and id on disk |
| Dedupe.Filter.FirstSeen | internal/ingest/pipeline.go:458-473 | reports a key as new exactly when neither generation holds it, and rotates a full generation before accepting |
| Dedupe.WindowHolds | internal/ingest/pipeline.go:446-473 | over every key sequence the last cap accepted keys are known, no never-accepted key is, and at most 2 * cap are held |
| Dedupe.ProjectKeyInjective | internal/ingest/pipeline.go:436-440 | keys are equal exactly when project and event id are |
| Rows.PrunedSegmentIsEmpty | internal/eventstore/query.go:56-67 | a segment its manifest entry rules out holds no matching row |
| Rows.PageBounds | internal/eventstore/query.go:164-173 | in a sorted row group the first page's minimum and the last page's maximum bound all its timestamps |
| Rows.TimePrunedIsEmpty | internal/eventstore/query.go:164-173 | a row group skipped by its page bounds holds no matching row |
| Rows.BloomPrunedIsEmpty | internal/eventstore/query.go:174-197 | a row group skipped by a Bloom filter holds no matching row |
| Rows.MatchIff | internal/eventstore/query.go:26-52 | a row matches exactly when it is of the project, within the times and has every value asked for |
| Rows.FilterPicks | internal/eventstore/query.go:136-217 | the plain filter, which is what Scan returns, holds each matching row once, in order, and no other |
| Rows.OpenedIff | internal/eventstore/query.go:56-67 | a segment is opened only when it is the project's and some time within its bounds is asked for |
| Rows.GroupSkippedIff | internal/eventstore/query.go:164-173 | a row group with a column index is skipped exactly when no time from its first row to its last is asked for |
| Rows.BloomSkippedIff | internal/eventstore/query.go:174-197 | a row group is skipped by its filters exactly when one of them rules out a value asked for |
| Store.BuiltSegmentOk | internal/eventstore/store.go:355-415 | a written segment holds exactly its partition's rows in time order, one project, with the times of its first and last row as bounds and the sketch of their users |
| Store.BucketStarts | internal/eventstore/store.go:316-317 | partitions and buckets start at multiples of their width and hold the times from their start on, if and only if the time is not before 1970 or is itself the start |
| Store.InOneBucket | internal/eventstore/store.go:316-317 | every time is in one bucket: the one that starts at a multiple of the width within a width of it, at or before it from 1970 on and at or after it before; the truncated remainder finds it |
| Store.KeyHolds | internal/eventstore/store.go:310-317 | a partition is the rows of one project and one hour |
| EventStore.EventStore.constructor | internal/eventstore/store.go:112-174 | open registers every segment file once and starts numbering at zero |
| EventStore.EventStore.Append | internal/eventstore/store.go:270-281 | events are refused exactly when they would exceed the cap, and then nothing changes |
| EventStore.ScanSegment | internal/eventstore/query.go:136-217 | scanning a segment with pruning gives the plain filter of its rows, cut at the limit |
| EventStore.EventStore.Scan | internal/eventstore/query.go:72-132 | Scan returns exactly the plain filter of buffer plus all segments, cut at the limit: pruning drops no match and no row comes twice; with entries that describe an earlier file, what they do not rule out; a query without project is refused |
| EventStore.PruningDropsNothing | internal/eventstore/query.go:116-126 | manifest entries that describe their files rule out no matching row |
| EventStore.EventStore.AllRowsIsQueryable | internal/eventstore/query.go:72-132 | the sequence Scan visits is the queryable multiset of rows |
| EventStore.EventStore.Partition | internal/eventstore/store.go:309-318 | the grouping loop yields exactly the partitions present, each with its rows in order |
| EventStore.EventStore.WriteSegment | internal/eventstore/store.go:355-415 | success adds one well-formed file under the next number; failure leaves the files as they were |
| EventStore.EventStore.WriteParts | internal/eventstore/store.go:320-332 | the writing loop stops at the first failing partition, with exactly the earlier ones on disk and no earlier file touched |
| Compaction.PathHasLeastTs | internal/eventstore/store.go:355-364 | the timestamp in a segment's path is the least of its partition |
| Compaction.PlanRows | internal/eventstore/store.go:309-332 | the files of the first n partitions hold exactly their rows, as a multiset, and all of them the flushed rows |
| Compaction.ShownIffHarmless | internal/eventstore/store.go:363-364 | the rows in the manifest's files are the same after the writes if and only if no file in it is replaced by other rows |
| Compaction.HarmlessRegistered | internal/eventstore/store.go:414-414 | after harmless writes every manifest entry still says what its file says |
| Compaction.DiskGrows | internal/eventstore/store.go:320-332 | on unused paths the rows on disk, as another process lists them, grow by exactly the contents written |
| EventStore.FlushShows | internal/eventstore/store.go:297-351 | after a flush, failed or not, buffer and manifest files hold the flushed rows and what the files of the old manifest now hold |
| EventStore.FlushIffHarmless | internal/eventstore/store.go:297-351 | that is what they held before if and only if the writes were harmless |
| EventStore.EventStore.Flush | internal/eventstore/store.go:297-351 | the files of exactly the partitions before the first fault are written; without a fault they are registered beside everything known and the buffer is empty, else buffer and manifest are as before; the queryable multiset is conserved if and only if no registered file is replaced by other rows |
| EventStore.EventStore.Refresh | internal/eventstore/store.go:183-233 | registers exactly the files not yet known and shows their rows, so an idle Refresh adds nothing |
| EventStore.ManifestOrdered | internal/eventstore/store.go:339-348 | the manifest is in the order of project, hour, first time and number |
| EventStore.EventStore.FlushThenRefresh | internal/eventstore/store.go:183-351 | with every file known and on unused paths, a refresh after a flush adds nothing if and only if there was no fault or the first partition failed; otherwise exactly the rows of the partitions written before the fault |
| EventStore.RefreshAfterFlush | internal/eventstore/store.go:183-351 | the same of any listing, on values |
| EventStore.RetryLeavesTwice | internal/eventstore/store.go:320-333 | a failed flush and its retry leave on disk the flushed rows and once more those of the partitions the first attempt wrote |
| EventStore.SecondPartitionFails | internal/eventstore/store.go:320-333 | two partitions, the second failing, then a refresh: the first one's row is shown twice |
| EventStore.ReusedPath | internal/eventstore/store.go:337-340 | open, append and flush in two lifetimes with the same partition and timestamp: the path is registered twice, the new row is shown twice and a different old one is gone |
| Aggregate.Buckets | internal/eventstore/aggregate.go:103-107 | the bucket list is strictly increasing and holds exactly the buckets with rows and their counts |
| Aggregate.BucketsAreHistogram | internal/eventstore/aggregate.go:54-107 | it is the time series of the rows: each start a multiple of the width, each count the number of rows from the start to less than a width later, before 1970 from less than a width earlier to the start |
| Aggregate.Top | internal/eventstore/aggregate.go:108-126 | the list is the true top N over non-empty keys by count descending, then key |
| Aggregate.FirstAreTop | internal/eventstore/aggregate.go:116-124 | cutting the ranked list at N leaves out nothing that ranks before what stays |
| Aggregate.WholeSegmentMatches | internal/eventstore/aggregate.go:150-163 | a segment the sketch fast path covers matches the query entirely |
| Aggregate.AggregateSegment | internal/eventstore/aggregate.go:135-183 | with or without the footer sketch, the counters and the user registers become those of the matching rows |
| Aggregate.Aggregate | internal/eventstore/aggregate.go:54-129 | total, the time series at the width asked for or else an hour, the true top N of the four columns with N as asked from 1 to 50 or else 10, and the user registers are those of a plain filter of all rows |
| Hll.AddSketch | internal/eventstore/hll.go:28-39 | adding a value to the sketch of a set gives the sketch of the larger set |
| Hll.MergeSketch | internal/eventstore/hll.go:53-59 | merging two sketches gives the sketch of the union |
| Hll.SketchUnique | internal/eventstore/hll.go:28-59 | the registers are determined by the set of values: order and repetition do not matter |
| Hll.MergeSemilattice | internal/eventstore/hll.go:53-59 | Merge commutes, associates and is idempotent |
| Hll.HLL.AddValue | internal/eventstore/hll.go:28-39 | the in-place update computes Add |
| Hll.HLL.MergeFrom | internal/eventstore/hll.go:53-59 | the in-place loop computes Merge |
| Hll.IndexAndRank | internal/eventstore/hll.go:34-35 | the register is the number in the top 12 bits; the rank counts the zeros that lead the other 52, and one more, and is 64 when all are zero |
| Issues.HitLandsOnRoot | internal/metadata/issues.go:60-116 | a hit is counted on its fingerprint's root: that becomes regressed if and only if it was resolved and else keeps its status, its last time is the later one, its level the hit's, and title, basis, organisation and first time stay; a new fingerprint makes an unresolved issue of the hit; every other issue is unchanged |
| Issues.HitRefused | internal/metadata/issues.go:60-68 | in a valid table a hit is refused if and only if it has no project or no fingerprint |
| Issues.StatusOverRuns | internal/metadata/issues.go:60-281 | over every run in which no user sets or splits an issue its status stays, except that a resolved one is regressed once it is hit: an ignored one stays ignored |
| Issues.StatusSets | internal/metadata/issues.go:207-223 | a status is set if and only if a user may choose it and the issue is of the project; nothing else changes |
| Issues.SplitUndoes | internal/metadata/issues.go:269-281 | a split applies if and only if the issue is a merged one of the project; it is then an unresolved root, and nothing else changes |
| Issues.MergeOkIff | internal/metadata/issues.go:229-264 | a merge succeeds if and only if the target is an unmerged issue of the project and every source another issue of it |
| Issues.MergeStops | internal/metadata/issues.go:239-261 | the first source that will not do decides the error |
| Issues.MergeKeepsFields | internal/metadata/issues.go:229-264 | a merge changes of a row only where it points and, for the target, its count |
| Issues.MergeOneRow | internal/metadata/issues.go:243-260 | what merging one source does to each row of a flat table |
| Issues.MergeOneValid | internal/metadata/issues.go:243-260 | merging one source keeps every edge inside its project and one hop deep |
| Issues.MergeRemaps | internal/metadata/issues.go:229-264 | a merge sends to the target exactly the named sources and whatever was rooted at them |
| Issues.SurplusFreeIffFresh | internal/metadata/issues.go:239-261 | a merge recounts nothing if and only if its sources are distinct and unmerged |
| Issues.ApplyCounts | internal/metadata/issues.go:60-281 | each transaction keeps the invariant and grows the shown counts by the hit it records and exactly what it recounts |
| Issues.CountsConserved | internal/metadata/issues.go:60-281 | over every run the shown counts never fall below the hits recorded, and equal them if and only if no merge or split recounts |
| Issues.Db.UpsertIssue | internal/metadata/issues.go:60-116 | the transaction commits the upsert or nothing |
| Issues.Db.MergeIssues | internal/metadata/issues.go:229-264 | the loop over the sources computes the merge; a failed merge changes nothing |
| Issues.Db.SplitIssue | internal/metadata/issues.go:269-281 | a split applies to a merged issue of the project, or changes nothing |
| Issues.Db.SetIssueStatus | internal/metadata/issues.go:207-223 | the status of an existing issue changes, or nothing does |
| Ring.SortedListUnique | internal/cluster/ring.go:46-56 | a set of nodes has one sorted list, so order and repetition of members do not matter |
| Ring.RingDetermined | internal/cluster/ring.go:42-69 | every node computes the same ring from the same set of members, ties included |
| Ring.RingSize | internal/cluster/ring.go:57-62 | a ring has a hundred points for each node |
| Ring.ItoaIsDecimal | internal/cluster/ring.go:60-60 | the number in a virtual node's name is decimal, without leading zeros |
| Ring.VnodeNames | internal/cluster/ring.go:60-60 | each virtual node of a node is hashed under its own name |
| Ring.OwnerUnique | internal/cluster/ring.go:72-84 | without cross-node ties a key has one owner |
| Ring.MinimalMovement | internal/cluster/ring.go:46-84 | between memberships that differ by one node a key keeps its owner or moves from or to that node, when no two other nodes share its nearest point |
| Ring.MovementIffSettled | internal/cluster/ring.go:46-84 | that is exact: movement is minimal under every sort of the points if and only if no two other nodes share the nearest point |
| Ring.FoundIsNearest | internal/cluster/ring.go:72-84 | the entry the search finds, with wrap-around, belongs to a node nearest clockwise |
| Ring.Ring.SetNodes | internal/cluster/ring.go:46-69 | the ring becomes that of the set of nodes named |
| Ring.Ring.OwnerFor | internal/cluster/ring.go:72-84 | returns the node of the first entry at or after the hash, wrapping around, exactly when there are nodes; it is an owner in the sense of clockwise distance |
| Ring.Membership.RefreshRing | internal/cluster/membership.go:128-144 | ring and metadata are rebuilt from exactly the members that announced themselves, each as it was announced last |
| Ring.Membership.OwnerAddr | internal/cluster/membership.go:149-161 | remote exactly when the ring gives the project to another node, and then with that node's address |
| Ring.OneHop | internal/cluster/membership.go:149-161 | nodes with equal views agree, ties included: one serves locally, all others send to it, and it serves what it is sent |
| Envelope.ReadLineByChunks | internal/ingest/envelope.go:159-176 | the line read does not depend on the buffer size |
| Envelope.Parse | internal/ingest/envelope.go:87-155 | the loop over the stateful reader computes the parse the round trip is about, errors included |
| Envelope.SizeDecides | internal/ingest/envelope.go:91-106 | the result is that of parsing without the size check, unless more than the limit was pulled when the last turn of the loop begins, and then it is an error |
| Envelope.WithinLimit | internal/ingest/envelope.go:91-106 | within the limit the result does not depend on how the reader buffers |
| Envelope.RefusedIff | internal/ingest/envelope.go:91-106 | an input above the limit is refused under every buffering if and only if it is not an envelope whose last line begins within the limit |
| Envelope.BlankAtLimit | internal/ingest/envelope.go:103-117 | an input above the limit that is accepted holds one blank line from the last turn to the limit |
| Envelope.OversizedAccepted | internal/ingest/envelope.go:91-117 | five bytes against a limit of four, an empty JSON object, a newline and two spaces, read one byte at a time, are accepted |
| Envelope.RoundTrip | internal/ingest/envelope.go:87-155 | printed items within the limits parse back in order, whatever bytes length-prefixed payloads hold and with or without the last newline; unknown types are skipped |
| Envelope.RoundTripAccepted | internal/ingest/envelope.go:87-155 | with accepted types only, parsing undoes printing |
| Envelope.AcceptedIsThere | internal/ingest/envelope.go:87-155 | whatever input is accepted: its header is the first line, and its items, no more than allowed and each within its limit, stand in it in order |
| Envelope.DefaultLimits | internal/ingest/envelope.go:17-33 | limits that are not set are the documented ones |
| Envelope.AcceptedTypes | internal/ingest/envelope.go:36-48 | exactly these item types are kept |
| Glob.SplitJoins | internal/grouping/rules.go:139-141 | the pieces are the pattern cut at every `**` |
| Glob.IndexGlob | internal/grouping/rules.go:161-187 | the search finds the shortest match at the earliest start, or there is none |
| Glob.AcceptsIs | internal/grouping/rules.go:161-187 | a piece with a wildcard character is matched as path.Match does, any other by itself alone |
| Glob.Crossing | internal/grouping/rules.go:174-186 | of two matches of one pattern, one inside the other, the outer one can end where the inner one does, since they cross within a `*` |
| Glob.GreedyComplete | internal/grouping/rules.go:142-151 | taking a piece where the search finds it loses no way to place the remaining pieces |
| Glob.MatchPieces | internal/grouping/rules.go:139-153 | the loop accepts exactly the subjects that hold the pieces in order with arbitrary gaps, the first anchored, the tail free; wildcards in the pieces included |
| Glob.GlobMatch | internal/grouping/rules.go:132-157 | the same for the whole pattern, with its special cases: accepted if and only if the pattern means it |
| Lru.LRU.Get | internal/cache/lru.go:40-58 | a fresh hit returns the value and moves to the front, a stale one is dropped; map, list and byte account stay in step |
| Lru.LRU.Set | internal/cache/lru.go:62-84 | an accepted Set leaves exactly the longest most-recent-first prefix that fits, with the new key; an oversized value changes nothing |
| Lru.LRU.Evict | internal/cache/lru.go:77-83 | the loop stops at the longest fitting prefix |
| Lru.LRU.Delete | internal/cache/lru.go:87-93 | the key is gone and the account follows |
| Lru.FitsUnique | internal/cache/lru.go:77-83 | no longer prefix fits |
| Lru.HitIsLast | internal/cache/lru.go:40-101 | in every history a hit returns the value last accepted for its key, within its time to live; and a key that is held and within it is hit |
| Lru.OrderedByUse | internal/cache/lru.go:40-84 | in every history the list is in the order of last use, so what is evicted from its back is the least recently used |
| RateLimit.Limiter.Allow | internal/ratelimit/ratelimit.go:57-88 | one call works on its project's bucket only, and computes the step the bound is about |
| RateLimit.Limiter.Restore | internal/ratelimit/ratelimit.go:103-113 | seeded buckets are as checkpointed and others unchanged; all are seeded unless the cap is reached |
| RateLimit.Potential | internal/ratelimit/ratelimit.go:72-81 | admitted plus left over never exceeds the burst plus what was earned since the first call |
| RateLimit.Bounded | internal/ratelimit/ratelimit.go:57-88 | any stretch of calls on a bucket admits at most burst + rate * elapsed |
| RateLimit.Isolated | internal/ratelimit/ratelimit.go:57-88 | in any mix of calls, from any state, a project that has a bucket or gets one at its first call has the bucket and the admissions of its own calls alone |
| RateLimit.ProjectBounded | internal/ratelimit/ratelimit.go:57-88 | from any state and in any mix of calls, a project with room at its first call is admitted at most burst + rate * elapsed times; one without is admitted every time |
| RateLimit.RetryIsEnough | internal/ratelimit/ratelimit.go:82-87 | a client that waits as told is admitted |
| RateLimit.WaitAdmitsIff | internal/ratelimit/ratelimit.go:73-88 | a client without a token is admitted after a wait if and only if the missing part is earned by then |
| RateLimit.RetryIsLeast | internal/ratelimit/ratelimit.go:82-87 | so the wait suggested, when above a second, is the shortest that is enough |
| RateLimit.AdmittedIffCovered | internal/ratelimit/ratelimit.go:72-81 | no call is refused early: it is admitted if and only if the calls admitted since the bucket was last full, and it, are covered by what the bucket held then and what was earned since |
| RateLimit.BoundedIffRoom | internal/ratelimit/ratelimit.go:64-71 | every mix of calls that a project begins keeps it within its limit if and only if it has a bucket or there is room for one |
| RateLimit.Flooded | internal/ratelimit/ratelimit.go:65-68 | a project without room at its first call never gets a bucket and every call of it is admitted |

## Left out

- Glob.GlobMatch: subjects are sequences of characters; cuts inside a multi-byte character are not modelled.
- Pipeline.NoEventLost: segments appear in it as sets of rows, their layout being the event store's matter; the issue sink is not
  part of it.
- EventStore.EventStore.Flush: is one step for queries; the gap in which a concurrent Scan misses rows already taken
  from the buffer is not modelled.
- EventStore.EventStore.Scan: the callback does not fail.
- TailRuns.TailSound: no retention while a read-only process is attached, and no power loss of the owner.
- RateLimit.Bounded: exact arithmetic; floating-point rounding is not modelled.
- Ring.Membership.RefreshRing: the ring and the metadata change together; the moment between the two is not modelled.
- Node.NodeLosesNothing: log and pipeline are one process; a separate ingest process that dies alone is not modelled.
- Failing writes: a short failed write is not rewound by `writeBatch`, and fsync errors stop the batch; the model assumes a
  write completes or the process dies.
- Durability of directory entries and of the truncation on open, except that a file never synced may vanish.
- 64-bit overflow of offsets and byte counters.
- Segment, partition and offset file names; foreign files in the directories.
- HLL.Estimate, MarshalText and hash quality; Parquet and Bloom filter internals; segments that fail to open.
- Issue listing and filtering; SQLite itself; alerting.
- Fingerprinting and regular-expression normalisation; the rule matchers around the glob.
- Gossip, HTTP handlers, REST API, command line, authentication, configuration, logging and metrics counters.
- Backpressure in Submit and the pipeline's timers: they decide when steps happen, not what they do.
