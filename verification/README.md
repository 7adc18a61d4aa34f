# The resume pipeline of tsm2arc, verified

tsm2arc moves the shards of an InfluxDB store into Arc. A shard is merged, last write winning, into one
deterministic sequence of points; the points' lines are cut into chunks of bounded size; chunks are POSTed by
concurrent workers and committed strictly in order to a checkpoint; after a crash the shard resumes behind the
last committed line. This project models that pipeline and proves what it is for: nothing is lost, what is sent
twice is byte-identical, and the audit counts are exact.

The main results, top down:

- `Loading.LoadRepeatedly` and `Loading.LoadTableRepeatedly`: loadShard, run any number of times, each time with its
  own inflight, pipeline and split choices, its own interleaving of goroutines, its own read, POST and commit
  failures and its own point of death. Every payload Arc holds as seq n is chunk n of one uninterrupted serial run, a
  shard marked done has every chunk in Arc, and the audit counts are exact. They rest on `Loading.Load` and
  `Loading.LoadTable` (one run is one run of the abstract pipeline) and on the next item. `Loading.NothingIsLost` and
  `Loading.NothingOfATableIsLost` follow a stored value to the payload that carries its point's line.
- `LoadShard.WholeRunSafety`, `LoadShard.AuditExact` and `LoadShard.TodoIsRest`: what any sequence of sender runs over
  one item list keeps; a resumed run owes exactly the uncommitted chunks of the uninterrupted run. This rests on
  `Shard.ResumeIsSuffix` (extraction), `Chunks.CutSuffix` (chunking) and `Chunks.DiffIsTally` (audit).
- `Delivery.SentAtMostOnce`, `Delivery.FinishingSendsTheRest` and `Delivery.ExactlyCounted`: how often Arc gets a
  payload, how far it can be ahead of the checkpoint, and which rows the checkpoint counts.
- `ShardMeaning.ShardPointsMeaning` and `TableMeaning.EmissionMeaning`: what is emitted, read off the stored values and
  rows alone; last write wins, over the order in which things were written.
- `Sender.*` and `Scheduler.*`: two step systems, for sending and for split extraction, with invariants of every
  reachable state, absence of deadlock and a measure that bounds every run. `Stage.Uplink` performs the steps of the
  first on the checkpoint store and on Arc, `Scheduler.Play` those of the second.
- `Split.ShardResumeSplit`: split extraction refines serial extraction, which refines the simple model of
  `SeriesSpec`, through runs, coalescing, the heap merge and lazy block cursors.
- `Extract3.*` and `OrderKey.*`: the InfluxDB 3 path resumes with the exact suffix or refuses, over an
  order-preserving key encoding, whatever order files and WAL rows are met in.
- `IntegerCodec.*` and `TimeCodec.*`: round trips of the integer and timestamp block decoders, over wire forms that
  `Simple8b.PackedFields`, `Bytes64.Word64Meaning` and `Bytes64.UvarintMeaning` spell out.

How to read the files: `Orders`, `Values` and `Words` hold orders, timestamped values and 64-bit arithmetic.
`Blocks`, `Streams`, `FieldMerge`, `SeriesSpec`, `SeriesMerge`, `Coalesce`, `Runs`, `Shard` and `Extract` are serial
extraction, from the block index up, `ShardMeaning` what its output means; `Windows`, `Split` and `Scheduler` are the
split path. `Chunks` says where chunks end, `Upload` is the accumulator with its buffers and the load loop,
`Checkpoint` the store, `Sender` the step system of the send stage, `Stage` the sender and its committer at work,
`LoadShard` the composition over crashes, `Delivery` what arrives how often, `Loading` loadShard itself. `OrderKey`,
`Extract3` and `TableMeaning` are the InfluxDB 3 path; `Simple8b` and `Codecs` the block codecs.

What the model assumes of the environment:

- An index entry bounds its block's timestamps; a manifest bounds its file's row times; keys are unique per file and
  rows unique per InfluxDB 3 file, over series keys of one width; WAL rows have different ranks, object names differ;
  source files do not change between runs.
- The measurement resolver and the line encoder are fixed functions of a point, and lines are not empty. The chunk
  size is the same in every run; inflight, pipeline and split options may differ.
- Failures and interleavings are inputs: which opens and reads fail, what becomes of each POST (refused, stored
  without an answer, or acknowledged), after how many statements a transaction fails, what the other goroutines do
  while one waits, and whether the process dies where that script of moves ends; if it does not, whoever can move
  goes on. A failed transaction changes nothing.
- A decoding of the WAL may rank its rows differently in every run, but ranks rows of one series and time the same
  way round.

Where the code differs from its own description, the model follows the code:

- `internal/tsm/timestamp.go:8-14` numbers the encodings differently and calls the stored deltas zig-zagged
  deltas of deltas; the code reads 0 as raw, 1 as packed, 2 as run-length, and plain deltas.
- `internal/extract3/extract3.go:92-95` promises that a cursor that no longer matches the source fails; for a table
  without files and WAL rows the code succeeds before it looks at the cursor (`Extract3.Extract`).
- Audit counts are not exact for a shard whose first chunks were committed by a version without cursors
  (`LoadShard.LegacyAuditExactIff` says exactly when they are, `LoadShard.LegacyAuditCanMiss` shows one that is not).

`dafny verify dfyconfig.toml` verifies the project.

## Model

| member | source | states |
|---|---|---|
| Blocks.EntriesAscending | internal/extract/extract.go:289-299 | true exactly when the entries form a time-ordered chain, equal boundaries allowed |
| Blocks.PruneEntries | internal/extract/extract.go:274-284 | keeps exactly the entries that intersect the window, and loses no in-window value of the sorted key |
| Blocks.BlockWiseIsSorted | internal/extract/extract.go:204-222 | reading a chain block by block is the stable time sort of the whole key, repeated boundary timestamps included |
| Streams.FileSet.Get | internal/extract/extract.go:331-341 | opens a file on first use and never again while it is open, and only while it is referenced |
| Streams.FileSet.Release | internal/extract/extract.go:344-355 | refs stays the number of unreleased streams per file; the last release closes the file |
| Streams.FileSet.QuiescentIsClosed | internal/extract/extract.go:305-363 | with every stream released nothing is referenced and no file is open |
| Streams.BlockStream.constructor | internal/extract/extract.go:325-328 | a new cursor stands for the stable time sort of all its blocks, cut to the window |
| Streams.BlockStream.Peek | internal/extract/extract.go:158-185 | shows the head of what is left of that sequence, on the streaming and the fallback path; reads only blocks that intersect the window; fails only if a read fails |
| Streams.BlockStream.Advance | internal/extract/extract.go:187 | takes exactly the head off |
| Streams.BlockStream.LoadIndex | internal/extract/extract.go:192-223 | picks the streaming or the whole-key path without changing what is left to deliver |
| Streams.BlockStream.LoadNext | internal/extract/extract.go:226-247 | decodes one more block without changing what is left to deliver |
| Streams.BlockStream.Release | internal/extract/extract.go:263-270 | drops the file reference at most once |
| Streams.SliceStream.constructor | internal/extract/extract.go:101-106 | a WAL cursor stands for the stable time sort of its values, cut to the window |
| Streams.SliceStream.Peek | internal/extract/extract.go:110-124 | shows the head of what is left of that sequence |
| FieldMerge.MergeStep | internal/extract/extract.go:945-1045 | taking the least head by (time, child ordinal) is taking the first value of the children's stable merge |
| FieldMerge.FieldMergeStream.SiftDown | internal/extract/extract.go:1047-1063 | restores the heap below a node, loses and invents no entry, and terminates |
| FieldMerge.FieldMergeStream.Heapify | internal/extract/extract.go:993-995 | makes the collected heads a heap |
| FieldMerge.FieldMergeStream.Peek | internal/extract/extract.go:977-1001 | shows the head of the stable merge of the children: time, then child order, then the child's own order |
| FieldMerge.FieldMergeStream.Advance | internal/extract/extract.go:1005-1027 | takes exactly that head off |
| SeriesSpec.SeriesPointsMeaning | internal/extract/extract.go:811-833 | the simple model: one point per distinct in-range timestamp, strictly ascending, and nothing else |
| SeriesSpec.FieldsAtMeaning | internal/extract/extract.go:874-903 | a point's fields: names strictly ascending, each with the last value written in source order |
| SeriesSpec.SamePoints | internal/extract/extract.go:834-915 | the points depend only on each field's values per timestamp |
| SeriesSpec.SplitPoints | internal/extract/split.go:150-184 | cutting the window at any time cuts the points there |
| SeriesMerge.PutField | internal/extract/extract.go:891-901 | a later value of a field replaces the earlier one in place, a new field is appended |
| SeriesMerge.FindMin | internal/extract/extract.go:855-872 | the least head timestamp of all streams, or none when all are exhausted |
| SeriesMerge.Drain | internal/extract/extract.go:881-902 | consumes every value of a stream at the timestamp; the last one is kept |
| SeriesMerge.Gather | internal/extract/extract.go:880-903 | the point's fields are those of the model and every stream is past the timestamp |
| SeriesMerge.MergeStreams | internal/extract/extract.go:854-914 | the merge loop emits exactly the model's points and their statistics; a prefix if a read fails; all of them if none fails |
| Coalesce.GroupByName | internal/extract/extract.go:922-930 | groups streams by field, the fields in the order of their first stream, the streams of a field in their own order |
| Coalesce.CoalesceByField | internal/extract/extract.go:921-943 | one stream per field, delivering the stable merge of that field's streams in their original order |
| Coalesce.MergeSeries | internal/extract/extract.go:834-915 | coalescing, sorting and merging emits exactly the model's points of the given sources |
| Runs.PartitionRuns | internal/extract/extract.go:759-798 | the runs partition the files, ascend in time without touching, keep file order inside, and are one run when there is WAL data |
| Runs.RunsInOrder | internal/extract/extract.go:742-758 | every file of an earlier run ends strictly before every file of a later run begins |
| Runs.OverlapSharesRun | internal/extract/extract.go:754-758 | files with overlapping ranges share a run |
| Runs.RunByRun | internal/extract/extract.go:694-728 | merging run after run is merging all files at once |
| Extract.SortStrings | internal/extract/extract.go:623 | sorted keys: strictly ascending, the same elements |
| Orders.StrLessMeaning | internal/extract/extract.go:623 | string order: the first byte that differs decides, a prefix sorts first |
| Extract.ApplyCursor | internal/extract/extract.go:622-633 | succeeds exactly when there is no cursor or its series exists; keeps the series from it on |
| Extract.BuildRun | internal/extract/extract.go:696-717 | one cursor per key in file order, then the WAL: together the run's sources in precedence order |
| Extract.MergeRun | internal/extract/extract.go:696-728 | a run emits its sources' points and leaves no file open and no reference behind, failed or not |
| Extract.MergeOneSeries | internal/extract/extract.go:690-730 | runs, coalescing, heap and lazy blocks together emit the model's points of the series |
| Extract.EmitSerial | internal/extract/extract.go:672-732 | serial extraction emits exactly the model's output for the cursor, with its statistics; a prefix on failure, everything without one |
| Extract.TallyMeaning | internal/extract/extract.go:40-63 | the statistics are the number of emitted points, the number of their fields, and the earliest and latest of their times |
| Shard.ShardOutputAscends | internal/extract/extract.go:494-502 | the output strictly ascends in (series key, timestamp) |
| Shard.ResumeIsSuffix | internal/extract/extract.go:622-650 | extracting after any point of the full output yields precisely the points behind it, MaxInt64 timestamps and any start bound included |
| Shard.FromStartIsAll | internal/extract/extract.go:504-516 | without a cursor the output is the full output |
| ShardMeaning.ShardPointsMeaning | internal/extract/extract.go:699-717 | the full output, read off files and WAL: a point for every series and time in the window with a stored value, and in it, for every field, the value written last: the WAL over files, later files over earlier ones, later blocks and positions over earlier ones |
| ShardMeaning.PointExists | internal/extract/extract.go:599-612 | a series has a point at a time if and only if some block of some field in some file, or some WAL entry, holds a value there; a series found only in the WAL is one |
| ShardMeaning.SeriesExists | internal/extract/extract.go:566-616 | the series of a shard are those of its files and of its WAL |
| ShardMeaning.KeysMeaning | internal/extract/extract.go:704-709 | a full extraction counts every key of every file exactly once |
| Windows.SplitWindows | internal/extract/analyze.go:150-184 | the windows are inclusive, disjoint and cover [min, max] without a gap, at most k of them |
| Windows.AnyIntersects | internal/extract/analyze.go:187-194 | true exactly when some entry overlaps the window |
| Windows.WindowsAddUp | internal/extract/split.go:301-350 | the windows' points, one window after the other, are the run's points |
| Split.CollectRun | internal/extract/split.go:245-283 | the collected entries describe all sources of the run, and each key is counted once |
| Split.RunTasks | internal/extract/split.go:301-349 | the tasks of a run emit, in list order, the run's points in the range, however many windows are chosen |
| Split.BuildTasks | internal/extract/split.go:211-353 | in list order the tasks' outputs are what a serial extraction with this cursor emits; every estimate is positive |
| Split.RunSplitTask | internal/extract/split.go:453-478 | a task sends exactly its window's points, in batches, with their statistics; after a failure the beginning of them, and what was not sealed is dropped |
| Split.BatchEmitter.Emit | internal/extract/split.go:122-147 | batches lose and reorder nothing, and a batch's arena is never reallocated under earlier points |
| Split.BatchEmitter.Flush | internal/extract/split.go:149-159 | sealing a batch sends it once, without changing what was emitted |
| Split.AddStatsIsTally | internal/extract/split.go:436-441 | adding tasks' statistics up is observing the emitted points one by one |
| Split.AnyScheduleIsSerial | internal/extract/split.go:367-448 | whatever the schedule, the consumer emits a prefix of the tasks' serial output; without a failure all of it, and it added up exactly its statistics |
| Split.ShardParallel | internal/extract/split.go:367-448 | under every schedule and budget the split path emits the serial output with the serial statistics; a prefix on failure; refuses a budget that is not positive |
| Split.ShardResumeSplit | internal/extract/extract.go:652-733 | options and schedule change nothing: same points, same statistics, for every cursor, worker count, budget and threshold |
| Scheduler.StepKeepsSound | internal/extract/split.go:384-446 | every step keeps list order, the budget equation, the channels' bounds and the emission equation |
| Scheduler.BudgetIsHeld | internal/extract/split.go:187-205 | the budget in use is exactly the sum of the clamped estimates of the tasks that hold it, and within the limit; those tasks are consecutive in list order |
| Scheduler.OversizedRunsAlone | internal/extract/split.go:389-395 | a task that fills the budget holds it alone |
| Scheduler.EstimatesFit | internal/extract/split.go:384-397 | the estimates of all tasks admitted and not retired fit the budget together, unless there is only one such task |
| Scheduler.EmitsOutput | internal/extract/split.go:419-447 | under every schedule the emission is a prefix of one fixed output, and all of it when the consumer returns: the tasks' batches in list order, up to and including the first broken task |
| Scheduler.FailureIsFirstBroken | internal/extract/split.go:431-443 | the failure reported is that of the first broken task in list order, and exactly the tasks before it are counted |
| Scheduler.NeverStuck | internal/extract/split.go:379-446 | some step is enabled until the consumer has returned, given worker slots, the bounded queue and two-slot channels |
| Scheduler.RunsEnd | internal/extract/split.go:384-447 | a decreasing measure bounds the length of every run |
| Scheduler.Play | internal/extract/split.go:384-447 | any interleaving, played and completed, ends in a reachable state in which the consumer has returned |
| Chunks.CutIsCut | internal/chunk/chunk.go:86-109 | chunks concatenate to the lines; none exceeds the bound unless it is one oversized line; none had room for the next line |
| Chunks.CutUnique | internal/chunk/chunk.go:5-9 | only one list of chunks satisfies that: cutting is deterministic |
| Chunks.CutSuffix | internal/chunk/chunk.go:63-77 | starting over at a chunk boundary yields the remaining chunks |
| Chunks.DiffIsTally | cmd/tsm2arc/run.go:387-405 | the difference of two running tallies is the count of the points between, wherever counting began |
| Chunks.TallyCounts | cmd/tsm2arc/run.go:374-386 | the tally holds, per measurement, the number of renamed and skipped points so far |
| Chunks.ResumedChunks | cmd/tsm2arc/run.go:324-334 | restarting behind a chunk's last line at the next seq yields the remaining chunks: same seqs, bytes, cursors and audit deltas |
| Chunks.LinesMeaning | cmd/tsm2arc/run.go:446-459 | an item has a line if and only if it is sent or renamed |
| Chunks.EntriesMeaning | cmd/tsm2arc/run.go:456-459 | each line is that of its item, and they stand in emission order |
| Chunks.CountMeaning | cmd/tsm2arc/run.go:446-456 | a measurement's count is the number of items renamed or skipped under it |
| Upload.Accumulator.NewAt | internal/chunk/chunk.go:66-77 | numbering starts at startSeq; a bound that is not positive means the default |
| Upload.Accumulator.Append | internal/chunk/chunk.go:86-101 | appending a line takes the accumulator to the next state of the cut; every other buffer stays with its one owner |
| Upload.Accumulator.Flush | internal/chunk/chunk.go:104-109 | flushes what is buffered as the last chunk, nothing if there is nothing |
| Upload.Accumulator.DoFlush | internal/chunk/chunk.go:139-159 | one flush hands over one chunk, advances the seq, and never continues on a buffer of an unretired job |
| Upload.Accumulator.Detach | internal/chunk/chunk.go:114-118 | detaches only inside a flush |
| Upload.Accumulator.Recycle | internal/chunk/chunk.go:124-128 | keeps a returned buffer up to the cap |
| Upload.Accumulator.SpareCapacity | internal/chunk/chunk.go:133-137 | only ever raises the cap |
| Upload.Accumulator.OnFlush | cmd/tsm2arc/run.go:392-419 | skips committed seqs, else submits the next chunk with the tally difference as its deltas, and records it whether the submit succeeds or not; moves the baseline; buffers of unretired jobs keep their bytes |
| Upload.Accumulator.Reclaim | cmd/tsm2arc/run.go:408-416 | takes back the buffers of retired jobs and of no others; at most inflight stay out |
| Upload.Uploader.Submit | cmd/tsm2arc/run.go:418-423 | hands over the next chunk the run has to send, with its buffer |
| Upload.TallyDeltas | cmd/tsm2arc/run.go:692-717 | the measurements whose count grew, in order, with the growth |
| Upload.BumpTally | cmd/tsm2arc/run.go:377-386 | counts one more without changing any snapshot a marker refers to |
| Upload.LoadItem | cmd/tsm2arc/run.go:429-461 | one point takes the load to its next state: counted if renamed or skipped, appended if it has a line |
| Upload.LoadItems | cmd/tsm2arc/run.go:427-488 | what was handed to the sender, refused or not, is the beginning of what the run had to send; a complete load handed over all of it and knows the shard's chunk count and trailing deltas; without an invalid measurement and an extraction failure only a refused submit keeps it from being complete |
| Checkpoint.Store.Progress | internal/checkpoint/checkpoint.go:216-234 | the committed seq, -1 if none, and the cursor if the row has one |
| Checkpoint.Store.IsShardDone | internal/checkpoint/checkpoint.go:237-247 | whether the done mark exists |
| Checkpoint.Store.ApplyDeltas | internal/checkpoint/checkpoint.go:283-299 | adds every delta to its measurement's count, other shards untouched |
| Checkpoint.Store.Commit | internal/checkpoint/checkpoint.go:258-280 | seq, cursor and counts change together or not at all; the seq never moves back and the cursor only moves with it; other shards untouched |
| Checkpoint.Store.FinishShard | internal/checkpoint/checkpoint.go:307-335 | trailing deltas and the done mark change together or not at all; other shards untouched |
| Stage.Committer.RetireNext | cmd/tsm2arc/run.go:595-613 | retires one seq: its chunk is committed in one transaction if no earlier one failed, and its token is released in any case |
| Stage.Committer.Handle | cmd/tsm2arc/run.go:589-615 | the committer's loop body retires exactly what has become contiguous, one released token each |
| Stage.Uplink.SubmitInline | cmd/tsm2arc/run.go:624-630 | POST, then commit: an acknowledged or unanswered POST stores the payload once, and the chunk is committed if and only if the POST was acknowledged and the transaction went through |
| Stage.Uplink.SubmitPiped | cmd/tsm2arc/run.go:631-646 | waits for a token and a worker while the others run, in vain only after a failure, a cancellation or a crash; its moves and theirs are a run of the step system, and Arc and the checkpoint hold what that run accepted and committed |
| Stage.Uplink.Retire | cmd/tsm2arc/run.go:591-613 | the checkpoint advances by exactly the next chunk, or stays |
| Stage.Uplink.Wait | cmd/tsm2arc/run.go:667-673 | unless the process dies it returns, with the committer gone; nil behind the last submit means that nothing failed, and if nothing is going to fail it is nil |
| Sender.HandleIsSteps | cmd/tsm2arc/run.go:586-616 | that loop is a run of single retire steps |
| Sender.StepKeepsGood | cmd/tsm2arc/run.go:552-646 | every step of producer, workers and committer keeps the sender's invariant |
| Sender.CommitsInOrder | cmd/tsm2arc/run.go:584-608 | in every reachable state the commits are firstSeq, firstSeq+1, ... without a gap, each of a chunk whose own POST succeeded |
| Sender.NothingAfterFault | cmd/tsm2arc/run.go:600-608 | nothing commits after the first failure in seq order |
| Sender.WaitNilMeansCommitted | cmd/tsm2arc/run.go:472-477 | wait returning nil behind the last submit means every chunk is committed and in Arc |
| Sender.OutstandingBound | cmd/tsm2arc/run.go:531-533 | at most inflight chunks are submitted and unretired |
| Sender.DuplicateWindow | cmd/tsm2arc/run.go:524-529 | accepted but uncommitted seqs lie in [n, n+K] after the commit of n failed, and apart from n in [n+1, n+K] after its POST failed |
| Sender.DuplicateWindowIsTight | cmd/tsm2arc/run.go:623-646 | for every K a run in which all of [n+1, n+K] is in Arc uncommitted, and n too if its commit failed |
| Sender.WorkerNeverBlocks | cmd/tsm2arc/run.go:531-533 | a worker with a result can always push it |
| Sender.NeverStuck | cmd/tsm2arc/run.go:664-673 | until the committer has exited some step other than a cancellation is enabled, in whatever order results arrive |
| Sender.CleanRunDrains | cmd/tsm2arc/run.go:664-673 | if no POST and no commit fails and nobody cancels, the drain ends with every chunk submitted and no error |
| Sender.RunsEnd | cmd/tsm2arc/run.go:667-673 | a decreasing measure bounds every run, so wait completes |
| LoadShard.TodoIsRest | cmd/tsm2arc/run.go:392-403 | on the seek path and on the re-derive path alike a run has to send exactly the uncommitted chunks of the uninterrupted run |
| LoadShard.PipelinedKeeps | cmd/tsm2arc/run.go:336-363 | a pipelined run keeps the world safe, wherever it stops |
| LoadShard.InlineKeeps | cmd/tsm2arc/run.go:623-630 | so does an inline run |
| LoadShard.WholeRunSafety | cmd/tsm2arc/run.go:320-487 | after any runs of the sender with any crashes and failures: every accepted payload of seq n is chunk n of one uninterrupted run, the committed prefix is in Arc, and a done shard has every chunk in Arc |
| LoadShard.AuditExact | cmd/tsm2arc/run.go:368-412 | stored counts are the renamed and skipped points up to the stored cursor, and the shard's totals at the done mark |
| LoadShard.LegacySafety | cmd/tsm2arc/run.go:331-333 | a checkpoint from before cursors is resumed just as safely |
| LoadShard.LegacyAuditExactIff | cmd/tsm2arc/run.go:394-402 | its counts come out exact if and only if the chunks it had committed held no renamed or skipped point of the measurement |
| LoadShard.LegacyAuditCanMiss | cmd/tsm2arc/run.go:394-402 | a shard with one renamed point, committed by a version without cursors, ends with count 0 instead of 1 |
| LoadShard.CleanRunFinishes | cmd/tsm2arc/run.go:623-630 | from every safe state one inline run without failures finishes the shard |
| LoadShard.CleanPipelineFinishes | cmd/tsm2arc/run.go:468-487 | so does one pipelined run without failures, with any inflight and any order of results |
| LoadShard.PayloadsAreAllLines | internal/chunk/chunk.go:5-9 | the payloads one after the other are the lines of the items that are sent or renamed, in emission order, and nothing else |
| Delivery.SentAtMostOnce | cmd/tsm2arc/run.go:623-646 | a run stores no payload twice and none that was committed before it, only chunks of the uninterrupted run, and gets at most K + 1 seqs ahead of what is committed when it ends, one inline |
| Delivery.FinishingSendsTheRest | cmd/tsm2arc/run.go:468-483 | the run that marks a shard done stores every chunk that was not committed before it exactly once |
| Delivery.OneInlineRun | cmd/tsm2arc/run.go:623-630 | one inline run of a new shard without failures leaves Arc holding every chunk once and nothing else |
| Delivery.OnePipelinedRun | cmd/tsm2arc/run.go:631-673 | so does one pipelined run, with any inflight and interleaving |
| Delivery.RowsGrow | internal/checkpoint/checkpoint.go:265-273 | a run adds to the stored row count what Arc reported for exactly the chunks it committed; the done mark takes the count over |
| Delivery.ExactlyCounted | internal/checkpoint/checkpoint.go:305-331 | after any runs of a new shard Arc holds no payload more often than there were runs; if it reports the same rows for a chunk every time, the row counts are those of the committed chunks, and of all at the done mark |
| Delivery.DoneIsDelivered | cmd/tsm2arc/run.go:479-483 | once a shard is done, every item that is sent or renamed has its line in a payload in Arc, and none is invalid |
| Loading.PlanRun | cmd/tsm2arc/run.go:304-334 | where a run resumes: behind the cursor at the next seq, or from the start when there is no cursor |
| Loading.EmissionAfter | cmd/tsm2arc/run.go:327-329 | what an extraction after a stored cursor emits are exactly the items behind it |
| Loading.SenderDid | cmd/tsm2arc/run.go:336-363 | what the sender left in Arc and in the checkpoint is what its run says, and a drained sender sent everything |
| Loading.SendEmitted | cmd/tsm2arc/run.go:336-487 | cut, send, commit, drain and finish together are one run over the shard's items; other shards are untouched |
| Loading.Load | cmd/tsm2arc/run.go:293-487 | loadShard with any options, schedule, cursor and failures does to checkpoint and Arc what one run over the serial output does; no payload is stored twice or after it was committed; if nothing fails, inline or pipelined, the shard is done and the rest of its chunks were stored once each |
| Loading.SmoothIf | cmd/tsm2arc/run.go:623-673 | nothing fails if every POST is acknowledged, every transaction goes through, nobody cancels and the process lives |
| Loading.LoadTable | cmd/tsm2arc/v3.go:474-498 | the same for an InfluxDB 3 table, however this run ranked and met its WAL rows |
| Loading.LoadRepeatedly | cmd/tsm2arc/run.go:293-487 | any number of runs, each with its own inflight, pipeline and split choices and its own failures and crash: every payload Arc has as seq n is chunk n of one uninterrupted serial run, a done shard has all of them, and the audit counts are exact unless a version without cursors began the shard; no payload is there more often than there were runs |
| Loading.LoadTableRepeatedly | cmd/tsm2arc/v3.go:474-498 | the same for any number of runs over a table |
| Loading.NothingIsLost | cmd/tsm2arc/run.go:293-487 | once a shard is done, every point read off its files and WAL has its line in Arc if the resolver sends or renames it |
| Loading.NothingOfATableIsLost | cmd/tsm2arc/v3.go:474-498 | likewise the newest row of every point of a table |
| OrderKey.BuildOrderKey | internal/extract3/rows.go:188-213 | the key builder writes the specified encoding |
| OrderKey.OrderKeyEmbeds | internal/extract3/rows.go:177-187 | string order of keys is the tuples' column-wise NULLS-FIRST byte order |
| OrderKey.OrderKeyMeaning | internal/extract3/rows.go:177-187 | read directly: the first column that differs decides, NULL before every value, values by bytes |
| OrderKey.OrderKeyInjective | internal/extract3/rows.go:177-187 | different tuples have different keys, NUL bytes and prefixes included |
| OrderKey.PrefixOrder | internal/extract3/extract3.go:296-300 | string order of bucket prefixes is numeric order for all int64 chunk times |
| OrderKey.FullKeyEmbeds | internal/extract3/extract3.go:168 | string order of full keys is (chunk time, tuple) order |
| Extract3.Bucketize | internal/extract3/extract3.go:222-239 | one bucket per chunk time, ascending, files oldest write first, WAL rows attached |
| Extract3.BucketizedOnce | internal/extract3/extract3.go:222-239 | there is only one such list of buckets |
| Extract3.FileOrderIsIrrelevant | internal/extract3/extract3.go:241-256 | the order in which the caller lists the files changes nothing |
| Extract3.WalOrderIsIrrelevant | internal/extract3/extract3.go:108-112 | nor does the order in which a run iterates over the map of WAL rows: what can be read and what is emitted stay the same |
| Extract3.OnlyRelativeRanksMatter | cmd/tsm2arc/v3wal.go:59-75 | nor do the ranks a decoding gives its WAL rows, as long as rows of one series and time are ranked the same way round |
| Extract3.BucketsDisjoint | internal/extract3/extract3.go:259-277 | true exactly when no bucket's data reaches the next bucket's chunk time |
| Extract3.DisjointBucketsShareNoTime | internal/extract3/extract3.go:16-21 | if so, and rows lie at or behind their chunk time, no (series, time) is emitted from two buckets |
| Extract3.ReadBucket | internal/extract3/rows.go:36-93 | all wanted rows in (series, time, rank) order; fails exactly on unreadable input |
| Extract3.NewestRowWins | internal/extract3/extract3.go:161-167 | a bucket emits, of every (series, time), the row of the highest rank and nothing else |
| Extract3.SoundTableIsRanked | internal/extract3/extract3.go:23-28 | rows unique per file and WAL ranks unique determine the winner of every group |
| Extract3.EmissionAscends | internal/extract3/extract3.go:8-14 | the emission strictly increases in (series key, time) |
| Extract3.EmitRows | internal/extract3/extract3.go:161-194 | one bucket's winners behind the cursor; fails at the first of them if the cursor was not seen |
| Extract3.EmitBuckets | internal/extract3/extract3.go:115-200 | over given buckets it succeeds exactly when the cursor is an emitted position, and then emits exactly what follows; a refused cursor emits nothing |
| Extract3.Extract | internal/extract3/extract3.go:96-200 | on readable input it succeeds if and only if the table is empty or the cursor is an emitted position, and then emits exactly what follows; a refused cursor emits nothing; the iteration order of the WAL rows changes none of this |
| Extract3.EmptyTableHasNoPosition | internal/extract3/extract3.go:98-100 | no cursor is a position of an empty table's output, though extraction accepts every one |
| Extract3.ResumeIsSuffix3 | internal/extract3/extract3.go:92-95 | resuming behind any emitted position yields exactly the points after it, whichever iteration orders the two runs meet |
| TableMeaning.EmissionMeaning | internal/extract3/extract3.go:241-256 | the emission, read off files and WAL rows: of all rows of one series and time the newest, which is the WAL row ranked highest if there is one, else the row of the file with the greatest (WAL sequence, id, path); nothing else |
| TableMeaning.EachPointOnce | internal/extract3/extract3.go:101-113 | no two emitted points have the same tags and time, in the global merge or bucket by bucket |
| TableMeaning.ReadableMeaning | internal/extract3/rows.go:36-93 | everything can be read if and only if no file is broken and no WAL row in the window has a tag outside the series key |
| TableMeaning.DoneMeansRead | internal/extract3/extract3.go:130-148 | an extraction from the start that succeeds has read every file that reaches into the window and met no WAL row there with an unknown tag |
| Bytes64.ReadUvarint | internal/tsm/integer.go:57-65 | the reading loop computes the specified value, length and overflow |
| Bytes64.UvarintRoundTrip | internal/tsm/integer.go:57-65 | every 64-bit value is read back |
| Bytes64.UvarintMeaning | internal/tsm/integer.go:57-65 | which bytes are too short, which overflow, and that a value's base-128 digits are the low seven bits of its bytes |
| Bytes64.Word64Meaning | internal/tsm/integer.go:44 | a word's first byte is its most significant |
| Words.ZigZagMeaning | internal/tsm/timestamp.go:127-129 | the shift, mask, negation and exclusive or of the source, bit by bit, give half the word or minus half the word minus one |
| Words.ZigZagRoundTrip | internal/tsm/timestamp.go:127-129 | zig-zag decoding is a bijection of words and signed numbers |
| Simple8b.DecodeAll | internal/tsm/simple8b.go:41-67 | succeeds exactly when the values fit, and then wrote exactly the words' values |
| Simple8b.DecodeSized | internal/tsm/integer.go:85-96 | a buffer sized by the words' counts is filled exactly and never reported short |
| Simple8b.PackRoundTrip | internal/tsm/simple8b.go:16-36 | unpacking what a packer wrote by the format's table of layouts gives the values back, as many as the words count |
| Simple8b.PackedFields | internal/tsm/simple8b.go:41-67 | the word sel * 2^60 + the sum of v[i] * 2^(i * bits) decodes to v, for each of the sixteen layouts |
| Simple8b.TableIsForced | internal/tsm/simple8b.go:16-36 | the selector table from 2 on is the only one that starts at 60, is as wide as possible and goes on with the next number of values |
| Sums.SumsOfDeltas | internal/tsm/integer.go:30-34 | running sums undo wrapping differences for every int64 sequence |
| Sums.PrefixSumsMeaning | internal/tsm/integer.go:41-46 | value i is the start plus the first i + 1 stored differences, wrapped around |
| Sums.StepsMeaning | internal/tsm/integer.go:50-73 | value i of a run is first + i * delta, wrapped around |
| IntegerCodec.DecodeIntegers | internal/tsm/integer.go:23-110 | decodes each of the three encodings as specified, and rejects what it rejects |
| IntegerCodec.RawRoundTrip | internal/tsm/integer.go:36-47 | the raw form recovers every int64 sequence |
| IntegerCodec.PackedRoundTrip | internal/tsm/integer.go:76-105 | the packed form recovers every sequence it can represent |
| IntegerCodec.RleIntegersRoundTrip | internal/tsm/integer.go:49-74 | the run-length form recovers every sequence of one constant wrapping difference |
| IntegerCodec.RleIntegersCrash | internal/tsm/integer.go:67-69 | decoding panics exactly when count + 1 leaves the int range: the allocation fails, or the length wraps to zero and the first write does |
| TimeCodec.DecodeTimestamps | internal/tsm/timestamp.go:23-116 | decodes each of the three encodings as specified |
| TimeCodec.TenTo | internal/tsm/timestamp.go:118-124 | the power of ten, without wrapping for every header exponent |
| TimeCodec.RawTimesRoundTrip | internal/tsm/timestamp.go:32-51 | the raw form recovers every sequence, unscaled whatever the header says |
| TimeCodec.PackedTimesRoundTrip | internal/tsm/timestamp.go:78-111 | the packed form recovers every sequence whose wrapping differences are multiples of the scale |
| TimeCodec.RleTimesRoundTrip | internal/tsm/timestamp.go:53-76 | the run-length form recovers every sequence in constant steps of a multiple of the scale, upwards or downwards |
| TimeCodec.RleTimesCrash | internal/tsm/timestamp.go:69 | decoding panics exactly when the count leaves the int range |

## Left out

- Windows.ChooseSplits: that the windows carry roughly equal bytes is a heuristic about speed; the contract only says that the cut points ascend below max.
- Upload.TallyDeltas: the action, target name and origin of a delta are fixed functions of the measurement and are left out of it.
- Upload.Uploader.TakeBack: which retired buffers find room in the sender's bounded channel is left open; every choice is covered.
- Split.RunSplitTask: the merge hands its points to the emitter when it has them all; batch boundaries are the same, overlap in time is the scheduler's.
- Split.BatchEmitter.Flush: a batch is always sent; that a cancelled task drops its output is its failed finish in `Scheduler`.
- Sender.NeverStuck: that a POST in flight returns some day is assumed; a cancelled context is one step that makes the producer stop.
- Scheduler.NeverStuck: a task's work is a finite list of batches; opening files inside a worker is part of its steps.
- FieldMergeStream.release: nothing calls it; the children are released by the caller, as in the source.
- The index pass is modelled as functions of the parsed shard, not as the file-by-file loop; skipped keys are not counted.
- Measurement and tags are functions of the series key and are left out of points; field values are opaque.
- Library sorts are modelled as insertion sorts; the proofs use only that the result is sorted (and stable where the source asks for it).
- Timestamps of checkpoint rows are left out.
- Concurrent goroutines are step systems; a channel operation, a commit with its token release, and a batch handed over are single steps.
- Batch pools, the index cache, retry timing and progress reports are about speed only.
- The statistics of the InfluxDB 3 path, its warnings, and the parsing of WAL sequences from object names.
- Rank order within one InfluxDB 3 file that repeats a (series, time), which the source excludes, and memory limits on decoded lengths below the int range.
- Simple8b selectors 0 and 1 are decoded as the code decodes them, as zeros; agreement with InfluxDB's own encoder is not claimed for them.
- HTTP, gzip, SQLite and its migrations, catalog and snapshot parsing, Parquet, S3, float, boolean and string codecs, line-protocol text, discovery, analysis reports and the command line.
