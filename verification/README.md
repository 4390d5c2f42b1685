# better-batch: a machine-checked model

better-batch is a crash-safe buffer. Writers append records to a segmented write-ahead
log with group commit; a pipeline reads them back, batches them, delivers them,
acknowledges them out of order and moves a checkpoint. What it is for is a set of
guarantees over whole lives of a buffer: nothing that was acknowledged is lost, a number
never names two records, capacity is conserved. This project models the code that has to
provide them and proves them, for every run, every interleaving and every crash point.

`dafny verify dfyconfig.toml` checks everything.

## How the model is laid out

| layer | files |
|---|---|
| record frames, recovery scan, file names | `RecordFormat`, `SegmentScan`, `SegmentName` |
| the log as a state machine over directory and memory | `Wal` |
| what every step of it keeps, and what whole runs guarantee | `WalShape`, `WalHistory`, `WalRuns`, `WalStaged`, `WalRotation`, `WalReopen`, `WalNever`, `WalDurability` |
| the log as the object the source writes, what holds while it commits, what it opens | `WalLog`, `WalCommit`, `WalOpens` |
| the windowed reader, the log as it sees it, the backlog counted with it | `LogReader`, `WalSnapshot`, `WalStall`, `Backlog` |
| opening a damaged directory | `Salvage`, `SalvageDamage` |
| the flusher, delivery, acknowledgement, ages | `Flusher`, `Delivery`, `Outcomes`, `Sinks`, `LowWater`, `AgeQueue` |
| admission and wake-ups | `Capacity`, `Sizing`, `Gate`, `Admission`, `Crowding` |
| log, reader, flusher, delivery, checkpoint and Open together | `Pipeline`, `PipelineFrame`, `PipelineContent`, `Assembly` |
| concrete runs and lives | `WalExample`, `Reissue` |

**The log machine.** A state is a directory (segment files with bytes and a synced length,
and the RESERVED cell), the memory of the process that has it open, and history no code
reads: every record ever visible, every commit round with what it was told, the last number
deleted, and whether a Close of a log whose rollback had failed ever gave RESERVED back
(`tainted`). A step is one critical section of the log's mutex or
one effect on a file; I/O outcomes are part of the step, and a crash may fall between any
two. A machine crash keeps of each file any prefix at least as long as its synced length, a
process crash keeps everything. A record carries the round it was staged into, so that two
records under one number can be told apart even when their payloads are equal.

**The source's form.** Code that mutates is imperative here too: `WalLog.Log`,
`LogReader.Reader`, `Salvage.Opening`, `Flusher.Flusher`, `Delivery.Buffer`,
`LowWater.AckTracker` and `AgeQueue.AgeTracker` are classes whose methods contain the
source's loops and branches, proved against functions and predicates about which the
lemmas are stated. The methods of `WalLog.Log` are runs of the log machine, with steps of
stagers, Truncate and Close between any two of their own; the log's fields are one record,
so that such a run can be compared with the machine's states. Where goroutines interleave
at atomics (`Capacity`, `Outcomes`, `Gate`, `Admission`) the model is a step relation.

**Choices of others** (clocks, I/O results, sinks, codecs, policies, timers, contexts) are
arguments: scripts of arbitrary outcomes, over which every statement quantifies.

## What the proofs found

* *Recovery links over bytes that are not on stable storage.* recover opens a new segment
  above the reservation without syncing the tail it records as its predecessor
  (internal/wal/wal.go:312-323). After a process crash before the fsync and a reopening, a
  machine crash can take the old tail, and Open then refuses the directory as a broken
  chain, in the fsyncing mode and without an I/O error. `WalReopen.PageCacheTail` is such a
  run; `WalReopen.RecoverKeepsReopening` says exactly when a recovery keeps the guarantee.
* *Starting a segment is a window in the mode that never fsyncs.* The next segment is made
  durable before the old one is synced (internal/wal/wal.go:665-675, internal/wal/segment.go:104). Under
  SyncNever the old one holds unsynced records then, and a machine crash at that moment leaves
  a link to records that are gone: Open refuses the directory, where the documentation
  promises the loss of recent writes only (README.md:125). `WalNever.RotationWindow` is such a
  run without an I/O error; `WalNever.ReopensIffNotHalf` says that in every mode, given
  recoveries from stable directories, this moment is the only one.
* *A reader can stall below durable records.* Reader.position steps into a gap only if the
  segment behind it has records (internal/wal/reader.go:183-188). A crash after a commit and
  another one between staging and committing leave an empty segment with a gap. A reader
  that has read the record in front of it gets ErrNoData while the next process commits
  records above, and once the segment in front has been truncated away it gets ErrTruncated
  (internal/wal/reader.go:189-191), which fails the buffer (flush.go:110-113). The next Open
  starts behind the gap. `WalStall.ReaderStallReachable` is such a run, with both answers;
  `LogReader.Reader.Next` states exactly when each is given.
* *A broken log's Close makes numbers come back.* After a failed rollback Close lowers
  RESERVED below frames that are still in the file (internal/wal/wal.go:801-817). If Close's
  own sync fails or a crash precedes it, the next process can deliver those records and store
  a checkpoint above them; a machine crash that takes the unsynced tail then makes Open hand
  the same numbers out again, and an acknowledged record under one of them lies at or below
  the checkpoint and is never delivered. `Reissue.NumberReissued` is such a life. Short of
  that, failed rollbacks cost nothing: `WalRuns.OneRecordPerNumber`,
  `SalvageDamage.ReservedGuards`, `PipelineContent.AtLeastOnce` and
  `PipelineContent.CrashThenReplay` need only that no Close gave RESERVED back on a broken
  log, and a round whose own rollback succeeded is never visible whatever else happened
  (`WalRuns.RoundTruth`).
* *Open can undercount the backlog.* countBacklog stops at the first ErrNoData
  (batch.go:313-315), which the reader also answers in the gap of an empty segment, so the
  records behind it are not counted (`Backlog.UndercountReachable`). What is counted is the
  whole backlog if and only if no such gap lies between the mark and the durable number
  (`Backlog.CountedAllIffNoGap`). Otherwise the counters stay below the backlog by what was
  missed for the life of the process, and the limits bound what is admitted exactly in the
  cases of `Capacity.RecordsBoundedIff` and `Capacity.BytesBoundedIff`.
* *Capacity given back in silence.* A refused reservation takes its additions back without
  signalling (batch.go:544-548), so another write it caused to be refused stays parked
  although it fits, until its bounded timer fires. `Admission.SilentGiveBack` is such a run;
  `Admission.WakeupOrDisturbed` shows that nothing else loses a wake-up, and
  `Crowding.ForgetsIff` that it takes a limit and two writes at the gate, and no more.
* *A parked Flush is not woken by failure*, because fail signals the capacity gate only
  (flush.go:885-888): `Gate.FailureForgetsFlush` is such a run. It stays parked exactly until
  a raiser signals or its context ends (`Gate.ParkedUntilSignal`), and learns of the failure
  exactly if it looks after it (`Gate.ToldIffLooked`).
* *Joined age marks overstate the head.* Halving the resolution gives the second mark of a
  pair the first one's time, at the head of the queue too (internal_support.go:153-164), so
  once the first one's records are acknowledged the oldest pending age is too large by what
  the two were apart (`AgeQueue.JoinedHead`), although the comment there says that the head
  keeps its resolution (internal_support.go:97-101). Until marks are joined the reported age
  is within the granularity (`AgeQueue.AgeTracker.Oldest`).
* *Salvage without RESERVED.* While RESERVED is intact, no damage to any directory makes a
  number be handed out twice (`SalvageDamage.ReservedGuards`). Where RESERVED is lost too,
  salvage's own bound does the same for segments it repairs (internal/wal/salvage.go:45-48),
  but not for a last segment damaged so that it looks torn, which is cut without raising the
  reservation: `SalvageDamage.LostNumbersNotReused` is the exact condition,
  `SalvageDamage.LostReservedReuses` an input.

## Model

| member | source | states |
|---|---|---|
| `RecordFormat.AppendRecord` | internal/wal/record.go:52-60 | appending a payload to the frames of some records gives the frames of those records and this one |
| `RecordFormat.FramesLowerBound` | internal/wal/record.go:62-62 | every record costs at least its header, so bytes bound how many records they can hold |
| `SegmentScan.ScanSegment` | internal/wal/segment.go:139-212 | the scanning loop reports exactly what the recursive definition over bytes says: count, end of the good prefix, clean, torn, corrupt or too large; what these verdicts mean is `SegmentScan.ScanExact` |
| `SegmentScan.ScanExact` | internal/wal/segment.go:122-138 | over arbitrary bytes and without the scan's own definition, each verdict iff: clean iff nothing but intact records; corrupt iff behind them a record of allowed length fails its checksum with bytes after it; too large iff one above the limit verifies; torn iff what follows can be a torn write |
| `SegmentScan.ScanVerdict` | internal/wal/segment.go:182-212 | the same with the values reported: how many records and where they end |
| `SegmentScan.ScanWritten` | internal/wal/segment.go:139-212 | records that were appended are all counted, whatever bytes follow, and the scan judges what follows |
| `SegmentScan.ScanTornTail` | internal/wal/segment.go:139-212 | appended frames followed by a strict prefix of another give precisely those frames, torn iff the prefix is not empty |
| `SegmentScan.ScanAfterCut` | internal/wal/segment.go:122-137 | however a crash cuts what was written, the scan finds the largest number of whole records that fit, and is clean iff the cut is at a record boundary |
| `SegmentScan.ScanAnyBytes` | internal/wal/segment.go:130-137 | for arbitrary bytes the good prefix is the framing of as many records as were counted, and rescans clean with the same count |
| `SegmentName.NameRoundTrip` | internal/wal/segment.go:59-82 | parsing a printed name returns the same (base, prevEnd), for all 64-bit values |
| `SegmentName.NameOrder` | internal/wal/segment.go:59-63 | byte-wise order of names is numeric order of base, then prevEnd |
| `SegmentName.KeptNeverParses` | internal/wal/salvage.go:61-61 | the copy salvage keeps of discarded bytes is never taken for a segment |
| `WalShape.ShapeStep` | internal/wal/wal.go:444-753 | every step keeps the log well formed: prevEnd is the predecessor's last number and below base, files hold exactly published records and a fragment of the batch in flight, nextLSN is active base + count + in-flight + pending |
| `WalShape.ShapeLinkFails` | internal/wal/wal.go:665-690 | a rotation that fails half-way leaves the log well formed on the old segment |
| `WalShape.ShapeRecover` | internal/wal/wal.go:261-340 | recovering any directory a crash can leave gives a well-formed open log |
| `WalHistory.HistoryStep` | internal/wal/wal.go:296-339 | every step keeps the log's history consistent, rounds that were rolled back have no record in any file, and unless a Close of a broken log has given RESERVED back, the reservation is above every number ever visible and a number that once named a record names it for good |
| `WalHistory.LastRecordNewest` | internal/wal/segment.go:46-57 | lastRecordLSN is 0 or the number of a real record, and no segment holds a newer one |
| `WalRuns.OneRecordPerNumber` | internal/wal/wal.go:453-463 | over any run of rounds, rollbacks (failed ones too), crashes, closes and reopenings in which no Close of a broken log gave RESERVED back: records visible under one number at any two moments are the same record |
| `WalRuns.FlatMapStep` | internal/wal/wal.go:570-753 | the segmented log refines a flat map: settling adds exactly the round's records, removing a segment takes exactly the numbers up to its end, every other step of a living process changes nothing |
| `WalRuns.RoundTruth` | internal/wal/wal.go:367-379 | a round told nil has every record kept under its assigned number for good, under the same proviso; a round told an error whose rollback succeeded, or that was only being filled, never has a record visible, in any run |
| `WalRuns.FailedNeverPublished` | internal/wal/wal.go:594-629 | even after a failed rollback, a process never shows its readers a record of a round it failed |
| `WalRuns.CloseDecidesAll` | internal/wal/wal.go:786-796 | once Close has drained the committer, every round of the process that holds a record is decided |
| `WalRuns.RoundsAccounted` | internal/wal/wal.go:367-379 | over whole runs, an undecided round of the living process is the one being filled or the one in flight |
| `WalRuns.DurableMonotone` | internal/wal/wal.go:618-626 | the durable mark never moves back while a process lives |
| `WalStaged.StagedTruth` | internal/wal/wal.go:420-473 | over any run: the payloads staged are what their round holds under the numbers the appender was told, in order, for good; once the round is told nil whatever a reader is given under such a number carries that payload (unless a Close of a broken log gave RESERVED back) |
| `WalRotation.SegmentsBounded` | internal/wal/wal.go:659-663 | at every moment of every run a segment's published size is at most MaxSegmentBytes, or all it publishes was written by one round |
| `WalRotation.SizesStep` | internal/wal/wal.go:659-710 | every step keeps that for the files, stranded batches and reopenings included |
| `WalReopen.ReopenFixedPoint` | internal/wal/wal.go:233-341 | recovering, stopping without writing in a way that keeps the bytes, and recovering again adds no segment and gives the same segments, records, durable mark and next number |
| `WalReopen.CrashKeepsBytes` | internal/wal/wal.go:296-341 | a process crash right after recovery, or a machine crash with everything synced, is such a way of stopping |
| `WalReopen.CloseKeepsBytes` | internal/wal/wal.go:801-817 | so is a clean Close, which finds no part of the reservation to give back |
| `WalReopen.CloseContinues` | internal/wal/wal.go:803-811 | after a clean Close of a log that is not broken the next process hands out the very next number, in the same segment and without a gap |
| `WalReopen.ReopensIffLinksSynced` | internal/wal/wal.go:282-288 | an undamaged directory opens after every machine crash if and only if every segment that another one follows is entirely on stable storage |
| `WalReopen.RecoverKeepsReopening` | internal/wal/wal.go:312-323 | recovery preserves that if and only if it adds no segment or the surviving tail is on stable storage |
| `WalReopen.RunAlwaysReopens` | internal/wal/wal.go:659-710 | in the fsyncing modes, if every recovery starts from synced bytes, every machine crash at every moment of the run leaves a directory that opens |
| `WalReopen.PageCacheTail` | internal/wal/wal.go:312-323 | a run without I/O errors in the fsyncing mode after which the directory does not open |
| `WalNever.ReopensIffNotHalf` | internal/wal/wal.go:665-683 | in every sync mode, if every recovery starts from stable bytes: at any moment a process has the log open the directory opens after every machine crash if and only if no rotation stands between creating its segment and syncing an old one with unsynced bytes |
| `WalNever.RotationWindow` | internal/wal/wal.go:665-675 | a run in the mode that never fsyncs, without I/O errors, that reaches that moment and after a machine crash does not open |
| `WalDurability.RunAckedSafe` | internal/wal/wal.go:570-710 | in the fsyncing modes every record of a round told nil is whole on stable storage, or was deleted by Truncate, at every moment of every run |
| `WalLog.Log.StageRecords` | internal/wal/wal.go:444-480 | on success the current round has grown by exactly these payloads, in order, and no other round has changed; numbers are claimed durably before they are handed out, at least a block at a time; on failure nothing has changed in memory; the whole is the machine's staging step, whatever becomes of the RESERVED write |
| `WalLog.Log.AppendBatch` | internal/wal/wal.go:394-441 | refused without a trace if a payload is too large or the log takes no more; told nil, every payload is visible under the number it was promised unless deleted since, and what was visible stays; told an error, readers see what they saw |
| `WalLog.Log.Commit` | internal/wal/wal.go:570-629 | whatever other goroutines do meanwhile: the round succeeds iff its write, the fsync of the mode and, if it has to start a segment, that do; on success the durable mark is the batch's last number and what readers see has grown by exactly the batch; on failure readers see what they saw, nextLSN is the batch's first number again, both the round and the one filled meanwhile are told an error, and the log is broken and the round's frames are stranded iff the rollback failed; all of it a run of the machine |
| `WalLog.Log.WriteBatch` | internal/wal/wal.go:659-710 | a new segment is started iff the active one is not empty and its size plus the batch exceeds MaxSegmentBytes; success iff the I/O this takes succeeds; on success the segment's size and count have grown by exactly the batch, which it ends with, on stable storage in the modes that fsync; either way readers have noticed nothing |
| `WalLog.Log.Rollback` | internal/wal/wal.go:632-650 | a rollback that succeeds leaves the active file holding exactly what is published, synced; either way readers see what they saw |
| `WalLog.Log.CloseLog` | internal/wal/wal.go:786-831 | Close ends the round in progress, drains what is staged, leaves no round that holds records undecided and, unless a broken log gave RESERVED back, gives back no number that was ever visible or is on disk; if its fsync succeeds the last segment is on stable storage |
| `WalLog.Log.GiveBack` | internal/wal/wal.go:801-817 | RESERVED becomes the last number handed out if it was above and the write is not lost; the proviso of the guarantees about numbers is lost exactly when a broken log's reservation is lowered |
| `WalCommit.BusyStep` | internal/wal/wal.go:570-629 | while a round is in flight every step of the committer or of others keeps readers' view, the round and the log's invariants |
| `WalCommit.SettleEnds` | internal/wal/wal.go:594-629 | settling shows exactly the round, or rolls back both rounds and hands the numbers back |
| `WalLog.Log.ChooseDoomed` | internal/wal/wal.go:714-727 | Truncate's loop picks the longest run of leading segments wholly below upto, never the active one |
| `WalLog.Log.DeleteDoomed` | internal/wal/wal.go:728-753 | files go first and a segment leaves the list only when its file is gone, however many removals succeed; the whole is a run of the machine's removal steps and its end step |
| `WalLog.Log.NewestRecord` | internal/wal/segment.go:50-57 | walks back over empty segments to the newest record's number, 0 if there is none |
| `WalLog.Log.WalkSegments` | internal/wal/wal.go:261-294 | the recovery walk refuses exactly the directories that are damaged or not linked, a damaged one without touching it, and otherwise finds every segment and cuts a torn tail |
| `WalLog.Log.ResumeAt` | internal/wal/wal.go:296-330 | recovery resumes above the reservation in a new segment, or in the last one |
| `WalLog.Log.RecoverLog` | internal/wal/wal.go:233-341 | on any directory: recover succeeds iff every file is nothing but intact records, the last one up to a torn write, and the links fit, and then is the machine's recovery step; with a damaged file it refuses and leaves the directory unchanged |
| `WalOpens.OpenableIff` | internal/wal/wal.go:261-294 | the checks of the walk, over bytes alone: which directories open |
| `WalOpens.DamageRefused` | internal/wal/segment.go:202-206 | a file with interior damage, or with a verifying record above the limit, makes the directory refused wherever it stands |
| `WalOpens.RecoveryKeeps` | internal/wal/wal.go:261-294 | recovery leaves of every file exactly the frames of its intact records, and the segments in memory describe them |
| `LogReader.Reader.BytesAt` | internal/wal/reader.go:124-152 | the window always returns the file's own bytes |
| `LogReader.Reader.SkipTo` | internal/wal/reader.go:237-248 | walking headers finds the byte offset of the wanted record |
| `LogReader.Reader.OpenAt` | internal/wal/reader.go:204-233 | the cursor ends up at the first byte of the record nextLSN |
| `LogReader.Reader.Position` | internal/wal/reader.go:172-193 | finds the record's segment or steps over a declared gap; above what is deleted it fails exactly in the gap of a segment without records, at a deleted number exactly unless the open file stands at it, with ErrTruncated exactly below the head's base |
| `LogReader.Reader.Next` | internal/wal/reader.go:69-118 | callable at any later moments of the log: what it has returned so far is, in order, exactly the visible records from its start to where it stands; ErrNoData iff caught up or in an empty segment's gap above the head; at a number that has been deleted it answers from the file still open iff that stands at the record, and ErrTruncated otherwise; above what is deleted ErrTruncated iff in front of an empty head |
| `LogReader.Reader.NewReader` | internal/wal/reader.go:38-58 | refused iff the start has been deleted; otherwise it starts at the requested number, or at the head's base from inside the head's gap |
| `LogReader.Follow` | internal/wal/reader.go:69-118 | any number of calls at any later snapshots: the entries returned are the ones accounted for |
| `LogReader.ReadLater` | internal/wal/reader.go:28-34 | nothing the log does later makes what was read wrong or incomplete |
| `WalSnapshot.SnapshotVisible` | internal/wal/wal.go:848-856 | what a snapshot holds up to the durable mark is exactly what the log machine calls visible |
| `WalSnapshot.RunSnapshot` | internal/wal/wal.go:848-856 | in every state of every run a snapshot is linked, its durable mark names a record or lies below the head, and it shows exactly what is visible |
| `WalSnapshot.RunLater` | internal/wal/wal.go:848-856 | of two snapshots one process takes, the later one continues the earlier: segments grow, new ones start above, the durable mark and the head only move up, what was visible stays unless deleted |
| `WalSnapshot.LaterStep` | internal/wal/wal.go:570-753 | every step of a living process keeps that |
| `WalStall.ReaderStallReachable` | internal/wal/reader.go:183-191 | a run without damage or I/O error after which a reader that has read record 1 sits in an empty segment's gap although a later record is visible, and how truncation turns that into ErrTruncated |
| `Backlog.CountBacklog` | batch.go:300-331 | the loop counts exactly the records visible from `from` to where the reader stops, in number and in payload bytes, with the number of the last; it stops behind the durable mark or at the first number in an empty segment's gap |
| `Backlog.CountedAllIffNoGap` | batch.go:313-315 | what is counted is a front part of the backlog, and all of it if and only if no empty segment's gap lies between where the reader starts and the durable mark |
| `Backlog.CountersAtOpen` | batch.go:323-324 | what is stored is how the admission counters start, over the whole backlog with as many leading records counted |
| `Backlog.BacklogVisible` | batch.go:282-287 | in every life the count starts above everything deleted, and what is listed is exactly what is visible |
| `Backlog.UndercountReachable` | batch.go:311-315 | an undamaged, reachable log with two records above the mark of which one is counted |
| `Salvage.Opening.SalvageSegment` | internal/wal/salvage.go:49-95 | keeps the damaged bytes, then bridges the lost numbers, then cuts; stopping after any of these and opening again ends in the same directory |
| `Salvage.Opening.Recover` | internal/wal/wal.go:261-330 | the whole walk leaves exactly the directory `Walk` describes, and every directory it passes through leads a later Open to the same one; whether it ends or is refused, no byte is gone from a segment but a torn tail of the last one and bytes of which a copy is kept |
| `Salvage.BridgeRepeats` | internal/wal/salvage.go:66-85 | after the relink or the raised reservation the segment still fails its scan the same way and a second salvage finds the bridge built |
| `Salvage.CutRepeats` | internal/wal/salvage.go:87-92 | after the cut the segment scans clean with the same records and a new pass continues where the old one would have |
| `Salvage.ResumeRepeats` | internal/wal/wal.go:296-330 | once the resuming segment exists another pass adds none |
| `SalvageDamage.SalvageRestores` | internal/wal/salvage.go:36-48 | any linked chain damaged in place in any of its segments opens: every segment keeps its base and a run of its records from the front, all of them unless it was damaged, and the result is linked |
| `SalvageDamage.BeforeDamageSurvives` | internal/wal/salvage.go:16-18 | every record whose frame ends in front of the first overwritten byte survives |
| `SalvageDamage.HurtPrefix` | internal/wal/salvage.go:79-85 | no more records are lost than headers fit in the discarded bytes |
| `SalvageDamage.ReservedGuards` | internal/wal/salvage.go:45-48 | for any run in which no Close of a broken log gave RESERVED back and any damage to its directory with RESERVED intact: what opening makes of it hands out only numbers above every number ever visible and every record on disk |
| `SalvageDamage.LostNumbersNotReused` | internal/wal/salvage.go:79-85 | with RESERVED lost: no lost number is handed out again if and only if the last segment does not look torn, or nothing went with it, or what is left of RESERVED covers it |
| `SalvageDamage.LostReservedReuses` | internal/wal/wal.go:277-281 | an input for the other case: RESERVED lost, a last segment that looks torn, and the lost number is next |
| `LowWater.AckTracker.Ack` | internal_support.go:75-94 | for any completion order the mark is the greatest number with everything up to it acknowledged, and the capacity freed so far is the sum over ranges at or below it |
| `LowWater.MarkUnique` | internal_support.go:46-58 | there is only one such mark |
| `AgeQueue.AgeTracker.Take` | internal_support.go:135-167 | noting keeps at most 512 marks, strictly increasing, that stand for the whole history: every pending note is covered by a mark no later than it, every mark carries the time and number of real notes in its own range; below 512 marks nothing is joined, and every mark stays within the granularity of a note of its own |
| `AgeQueue.AgeTracker.Halve` | internal_support.go:153-164 | the in-place loop joins adjacent marks: later number, earlier time |
| `AgeQueue.AgeTracker.Trim` | internal_support.go:170-181 | trimming drops exactly what is acknowledged, also when it comes late |
| `AgeQueue.AgeTracker.Oldest` | internal_support.go:185-192 | zero when everything noted is trimmed; otherwise the time since a real note and at least the age of every pending one; until marks are joined it overstates the age of some pending note by less than the granularity |
| `AgeQueue.PairedStands` | internal_support.go:153-164 | halving the resolution loses no pending note and invents no time |
| `AgeQueue.HeadIsOldest` | internal_support.go:102-110 | the queue is empty iff everything noted is trimmed, and no pending note is older than its head |
| `AgeQueue.JoinedHead` | internal_support.go:153-164 | joining marks gives the second one's records the first one's time at the head too, at least the granularity earlier |
| `Flusher.Flusher.Run` | flush.go:34-246 | for every log with gaps, every decode outcome, floor movement and stopping point: the ranges handed on are right and consecutive, a record that stops the flusher is in none of them, a drained flusher was told to drain in an earlier turn and has handed on all it read, and drops are counted once |
| `Flusher.Flusher.Step` | flush.go:87-245 | one turn keeps that, leaves no batch waiting that is full, cut, expired, forced or draining, and hands on none for another reason and at most one; it reads all there is unless a batch is filled or cut, a read fails or a record stops it; it ends as drained only while draining with nothing left, while draining it does not wait, and a turn that hands on nothing takes in its event |
| `Flusher.Flusher.Fill` | flush.go:105-163 | the reading loop: skips stay in the range with their capacity, a discontinuity is held over, StopBuffer leaves the record undecided; it ends only at missing data, the end of the log, a full or cut batch, an error or a stop |
| `Flusher.Flusher.StartBatch` | flush.go:78-85 | acknowledges the stretch in front of a batch, and the batch starts its own range |
| `Flusher.TilesDisjoint` | flush.go:605-607 | ranges are non-empty and disjoint; each batch is numbers id..id+count-1 in order and exactly the records of the range that are not to be dropped, with at most one dropped record behind it; counts and bytes are what the log holds in the range |
| `Flusher.TilesCover` | flush.go:605-607 | every number from the start to the last one handed on is in some range |
| `Delivery.Buffer.Deliver` | flush.go:268-385 | whatever others do between its steps, a batch ends in exactly one way: one fate counted and one completion of its whole range, or neither and the buffer has failed or is aborting. The sink is called unless the floor is above the batch, and only then is it discarded by policy; attempts go on exactly while they are refused and to be retried, a dead-letter verdict or the last attempt hands the batch on; flushed iff the sink said yes, dead-lettered iff the dead-letter sink did; a cancellation error never disposes of a batch |
| `Delivery.Buffer.DeadLetter` | flush.go:464-548 | the same for the dead-letter loop, where a verdict or the last attempt drops the batch, and having no dead-letter sink does |
| `Delivery.Buffer.Try` | flush.go:283-352 | one attempt of either loop, exactly: the sink is called unless the floor is above the batch, which alone discards it; a yes settles it, a cancellation, a panic, an abort or the handler's failure keeps it, and otherwise it stays alive with the handler's action; the handler is asked only about errors and not while aborting |
| `Delivery.Buffer.Environment` | flush.go:753-756 | the rest of the program, which cancels the context only behind a closed abort |
| `Outcomes.Conservation` | flush.go:268-385 | for any number of concurrent deliveries and the flusher, in every interleaving: flushed + dead-lettered + dropped (the flusher's drops included) + unacknowledged is what has been read; completions cover exactly what is not open; no range is completed twice |
| `Outcomes.FateTruth` | flush.go:283-352 | in every interleaving a batch counts as flushed iff the sink said yes and as dead-lettered iff the dead-letter sink did, and is dropped only if the floor is above it or its last sink, with no other behind it, refused it for good or for the last time; attempts stay within their bounds |
| `Outcomes.CancelNeverDisposes` | flush.go:753-756 | in every interleaving a delivery that keeps its batch leaves the buffer failed or aborting, and one ever answered with a cancellation error never disposes of it |
| `Outcomes.AllSettled` | flush.go:628-633 | once all deliveries have finished everything read is counted and completed |
| `Outcomes.BalanceStep` | flush.go:464-548 | every atomic operation keeps the books balanced |
| `Capacity.CapacityConserved` | batch.go:541-587 | in every interleaving the counters are transient additions plus undecided reservations plus releases under way plus records above the mark, less what Open did not count, and admitted load is within max(limit + what was not counted, inherited backlog) in records and in bytes |
| `Capacity.QuiescentIsBacklog` | batch.go:398-444 | once every goroutine is idle the counters are exactly the records above the mark less those Open did not count: nothing leaked, nothing released twice |
| `Capacity.NeverBelowIff` | batch.go:282-287 | the counters are at or above the backlog in all reachable states if and only if Open counted all of it |
| `Capacity.RecordsBoundedIff` | batch.go:541-551 | admitted load stays within max(record limit, inherited backlog) in all reachable states if and only if Open counted everything or left no room anyway |
| `Capacity.BytesBoundedIff` | batch.go:541-551 | the same for the byte limit |
| `Capacity.OverAdmits` | batch.go:282-287 | with a limit of 10, 1 inherited record in front of the gap and 10 behind it, 20 are held at once |
| `Capacity.BalanceStep` | batch.go:541-587 | every atomic operation keeps that balance |
| `Gate.NoLostWakeup` | internal_support.go:24-45 | in every interleaving a waiter parked although the mark or the floor has reached its target holds a closed channel, or somebody is about to signal |
| `Gate.FairStep` | flush.go:439-457 | every step of waiters and raisers keeps that |
| `Gate.FailureForgetsFlush` | flush.go:885-888 | a run in which a parked Flush is not woken by a failure |
| `Gate.ParkedUntilSignal` | flush.go:693-711 | in every run a waiter parked on an open channel stays so until a raiser signals or it leaves, whatever fails |
| `Gate.ToldIffLooked` | flush.go:696-702 | a Flush learns of a failure exactly when it looks after it |
| `Gate.SignalTells` | flush.go:693-711 | the next signal makes a parked Flush look, and learn of the failure |
| `Admission.WakeupOrDisturbed` | batch.go:591-644 | a write parked although the buffer failed, or although it would fit, holds a closed channel, or a signal is due, or, for room, another refused reservation was given back meanwhile |
| `Admission.SilentGiveBack` | batch.go:544-548 | the last case is real: a run that leaves a write parked with room, an open channel and no signal due |
| `Crowding.ForgetsIff` | batch.go:591-644 | over all runs with at most so many writes at the gate: one can be left parked with room, an open channel and no signal due if and only if there is a limit and two may be there at once |
| `Assembly.EntryIsRead` | flush.go:105-113 | what the reader returns is what the whole-buffer machine's Read act takes |
| `Assembly.TruncatedMeansEmptyHead` | flush.go:110-113 | in every life, whatever has failed, the reader stands above what is deleted, so ErrTruncated can only mean an empty head in front of it |
| `Assembly.RangeAssembles` | flush.go:78-85 | a range the flusher's loop hands on is one the whole-buffer machine may assemble from what its reader returned |
| `Assembly.AnyOrderDisjoint` | flush.go:605-633 | in whatever order deliveries finish, their completions meet what the acknowledgement tracker demands |
| `Assembly.AllCompletedMark` | flush.go:628-633 | once all ranges are completed, in any order, the mark is the last number handed on |
| `Assembly.RangesAccountForLog` | flush.go:605-607 | counts and bytes of all ranges together are exactly what the log holds from the start to there |
| `PipelineFrame.FramedStep` | batch.go:203-255 | every act of log, reader, flusher, delivery, checkpoint and Open keeps ranges, marks, head and what was read consistent, in every sync mode and whatever has failed, and, unless a Close of a broken log gave RESERVED back, the checkpoint below everything unsettled |
| `PipelineFrame.CheckpointSafe` | flush.go:656-678 | in every sync mode, at every crash point, whatever has failed: neither the head's link nor anything deleted lies above the checkpoint; and unless a Close of a broken log gave RESERVED back it does not exceed the reservation and never decreases |
| `PipelineFrame.HeadNeverMissing` | batch.go:219-223 | so in every sync mode and whatever has failed Open's missing-head check never refuses an undamaged directory |
| `PipelineFrame.LostHeadRefused` | batch.go:211-223 | when leading segments are gone that held a record above the checkpoint Open refuses the rest |
| `PipelineFrame.OpenResumes` | batch.go:224-246 | of what is visible after Open exactly the records above the stored checkpoint are read again, and bringing the checkpoint into the log's range passes over none |
| `PipelineFrame.ReaderMissesNothing` | flush.go:105-113 | over every life, whatever has failed: between where the reader started at Open and where it stands, a record is visible if and only if the reader returned it under that number and it has not been deleted since |
| `PipelineContent.AtLeastOnce` | flush.go:628-678 | over every life in a fsyncing mode, failed rollbacks included, in which no Close of a broken log gave RESERVED back: a record whose round was told nil is itself resolved (sink, dead-letter sink or counted dropped), or whole on stable storage above the stored checkpoint |
| `PipelineContent.WrittenAtLeastOnce` | batch.go:398-444 | the same from the writer's side: of every payload whose round was told nil, that payload itself, under the number its writer was told, is resolved or on stable storage above the checkpoint |
| `PipelineContent.CrashThenReplay` | batch.go:203-255 | in such a life whose recoveries start from stable tails, after any crash at any moment: the directory opens, Open's checks pass, and the flusher it starts is at or below every unresolved acknowledged record, which is visible |
| `PipelineContent.SoundStep` | batch.go:224-255 | every act keeps the invariant behind these |
| `Reissue.NumberReissued` | internal/wal/wal.go:801-817 | a life in a fsyncing mode with such a Close: one number is visible first as one record and then as another that was acknowledged, is not resolved, lies at the checkpoint and is skipped by the next Open |

## Left out

- File-system plumbing: the CHECKPOINT and RESERVED cells are replaced atomically and durably, or the write is lost before or after taking effect; lock files, identity, permissions and directory syncs are not part of this model.
- CRC-32C: an arbitrary function of length and payload. That damage is detected at all is the hypothesis `Hurt` of the salvage theorems, which says that what the scan accepts was written.
- Removal of a half-made segment (`discard`) succeeds; a name left behind by a failed removal is not modelled.
- Numbers are unbounded: the wrap-around of a 64-bit LSN is not modelled.
- PipelineContent.AtLeastOnce: not for lives in which a Close of a broken log gave RESERVED back, where it is false (`Reissue.NumberReissued`); which of those lives keep it is not characterised. Writes that DropNewest answers with nil without entering the log (batch.go:619-621) are outside it.
- A cut that a failed rollback made without syncing it stays made: that a machine crash brings the cut bytes back is modelled by a rollback that did not cut.
- SalvageDamage.SalvageRestores: damage overwrites bytes in place and is noticed by the checksum; a middle segment cut exactly at a record boundary is refused by the chain check, and a record above the size limit is refused by the scan, as in the source.
- LogReader.Reader.Next: the log does not change while one call runs; a snapshot taken between the removal of a file and the update of the segment list is modelled as taken after it.
- Progress: the whole-buffer results are about safety; that a reader gets to every visible number needs the absence of the stall above.
- Assembly.RangeAssembles: that the flusher's loop is fed what the reader returned (`FedBy`) is the meaning of its input, not a property of either.
- Delivery.Buffer.Environment: other goroutines are arbitrary moves with different batch ids; all of them at once are the subject of `Outcomes`.
- Admission.WakeupOrDisturbed: one direction only for room, since a write that was disturbed need not have room; the exact condition over runs is `Crowding.ForgetsIff`.
- How many records `dropOldest` sheds, backoff ladders, timers and tickers: amounts and durations are arbitrary choices; only the monotone floor is modelled.
- Observers, statistics, `sinkFailures`, panics other than as an outcome of a call, options, policies, codecs and the `clickhouse` package: notification, configuration and one-branch functions.
