# Verified model of ondaDB

ondaDB is an LSM engine with snapshots, merge operands, range deletes and expiring puts.
This project models the parts of it where a physical rewrite must not change what anyone
reads, and proves that it does not, or proves exactly when it does.

Everything is stated against one reference meaning. The *history* of a key maps each
sequence number to what was written there: a put, a tombstone, a merge operand. A range
delete joins the history of every key it covers as a tombstone. A *read* at snapshot `s`
walks the history down from `s`, gathers operands until the first base, and folds them
(`Semantics.Read`). Two chains are *equivalent* when every reader, under any newer operands,
resolves them alike (`Semantics.Equiv`).

The four parts, each against that meaning:

1. **Compaction.** `Rewrite` is the keep, drop and fold decision for one version at a time;
   `Preservation` and `KeyTheorem` are its theorem for one key. `MergeInputs`, `RunSpan`,
   `OutputBuilder`, `Fragments` and `Spans` are the loops around it: the merge of the
   inputs, the masked scan of one span, the cutting of files and fragments, and the spans
   of a job. `JobTheorem` lifts the theorem to whole jobs. `Reclaim` gives what a job
   writes for a key in closed form, and what it must drop. `PlanSpans` and `Ranking` choose
   spans and jobs. `Levels`, `Install` and `Rollback` put results into the tree and take
   them out again.
2. **The engine.** `Engine` is a state machine of commits, rotations, flushes, any number
   of concurrent range-locked jobs, failures and excisions. `EngineFacts`, `EngineSteps`,
   `EngineFinish`, `EngineReads`, `EngineJobs` and `EngineTheorem` prove its invariant, and
   from it that after every run every read equals the read of the commit log, key by key;
   `EngineLedger` says what that log, the memtables and the jobs add up to.
   `Rotation` is the writer, rotator, flusher and retirer protocol over any number of
   threads, and `RotationRuns` what whole runs of it keep. `Misread` and `Counterexamples` are concrete inputs and runs on which a promise
   fails.
3. **Reads.** `PointRead`, `ChainFold`, `GetImpl` and `GetInto` are the point reads;
   `Lookup` is the search of one level; `DbRead` reads the engine's state, `ReadExact` says
   which keys it sees whole, and `RangeFree` covers runs without range deletes;
   `BatchSources`, `BatchLookup` and `MultiGet` are the batched read. Each equals the
   reference meaning.
4. **Excise, codecs, orders.** `ExcisePlan` decides which tables may be dropped unread.
   `Varint`, `Duplicates`, `Entity`, `EntityCodec`, `ConfigBlob` and `ConfigFields` are the
   encodings; `ConfigExact` and `BlobExact` say what their decoders make of every input. `Comparators` are the key orders.

## Where the code falls short of its promise

Seven promises do not hold for every input. For each there is a concrete failing input and
the exact condition under which the promise holds.

- A bottom job drops an expired put even when it is newer than the oldest snapshot
  (src/compaction.rs:1245), which can bring an older value back.
  `Counterexamples.ExpiredPutUncovers` is an instance. `KeyTheorem.KeyExact` and
  `JobTheorem.JobExact`: reads are preserved if and only if no such put lies directly over
  something readable. `JobTheorem.UnexpiredClean`: jobs above the bottom, and jobs over
  nothing expired, always qualify.
- The first file of a span takes fragments that start before its own first key
  (src/compaction.rs:1320-1323), and a file with fragments only is stamped with its
  exclusive end as its last key (src/compaction.rs:1430-1433). The level lookup misses a
  range delete in the first case and a point in the second.
  `Counterexamples.EarlyFragment` and `Counterexamples.TouchingTables` are instances.
  `Misread.MisreadRun` is a whole run, from an empty family, after which a point read
  returns a value that the log says was deleted. `Lookup.LookupExact`: a level serves every
  lookup if and only if no fragment starts before its table's first key and no table ends
  where another begins. `ReadExact.ReadExact`: a read sees all the database holds about its
  key if and only if every level's lookup of that key finds all the level holds about it.
  `RangeFree.ReadAfterPointRun`: after a run that deletes no range, every read is exact.
- The screen of a job's split points is meant to keep every partition in one span
  (src/compaction.rs:2182-2193). With nested prefix rules, which are legal
  (src/config.rs:1811-1815), the start of the inner partition passes it and halves the outer
  one; `PlanSpans.NestedHalved` is an instance. `PlanSpans.ScreenExact`: the screen keeps
  every partition whole if and only if no partition has a hole.
- Rolling back an L0 job puts its inputs back oldest first, the reverse of L0 order.
  `Counterexamples.RollbackReorders` is a family of instances and
  `Counterexamples.RollbackInstance` one of them. `Rollback.RollbackOrder`: L0 comes back as
  it was if and only if the job took at most one table.
- Flush jobs are meant to be taken in the order their memtables were sealed, so that a flush
  waits only for flushes under way (src/column_family.rs:1492-1494). Sealing a memtable and
  sending its job are two steps, and another thread may seal and send a newer one in
  between. `RotationRuns.Overtaken` is a run after which the only flusher waits for a
  memtable that is behind it in the queue. `RotationRuns.OrderExact`: the order survives a
  move if and only if the move does not send a memtable while an older one is unsent.
- A directory varint of an entity frame may be padded. `Entity.PaddedFrameAccepted` is a
  frame that decodes but is not what encoding its columns gives. `Entity.Canonical`: an
  accepted frame is the encoding of its columns if and only if no directory varint ends in
  a redundant zero byte.
- A config can hold values its own decoder refuses. `ConfigFields.NoRestartsRefused` is one.
  `ConfigFields.ConfigRoundTrip`: its encoding decodes if and only if every field away from
  its default is in the range its reader insists on. Families are created only with configs
  that pass `validate` (src/config.rs:1816, src/db.rs:3009 and 3091), so such a config reaches
  only the public `encode`; `ConfigFields.ValidatedRoundTrip`: every validated config reads
  back.

## Reading the model

Keys are ranks in the comparator's order, given as real numbers, so that between any two
keys there may be another. Sequence numbers and sizes are natural numbers; saturation and
64-bit bounds are written out where the code depends on them. The merge operator is an
arbitrary partial function; theorems that fold assume the associativity that
src/config.rs:1588-1590 asks of it. The clock, the oldest snapshot, file sizes, block
numbers, hashes, checksums and the UTF-8 test are parameters. A catalog change is one step
that happens or does not.

Every lemma that Dafny would try by automatic induction carries `{:induction false}`. The
hypothesis Dafny 4.11 then adds by itself assumes facts about function calls on bound
variables without a guard on their types, and a satisfiable set of assumptions can become
contradictory through it. A new lemma here should carry the attribute too; `dafny resolve
--show-hints` lists the lemmas that would otherwise get such a hypothesis.

## Model

| member | source | states |
|---|---|---|
| `Semantics.FoldEquiv` | src/config.rs:1588-1590 | with an associative operator, an operand suffix folded into one value is equivalent to the suffix, under any newer operands and for every base |
| `Rewrite.VersionRetention.Decide` | src/compaction.rs:1207-1260 | the in-place decision updates exactly the per-key state and answers as the decision function does, in all its branches, and offers a user filter exactly the kept, settled, unexpired puts; what the decision means is `KeyTheorem.KeyExact` for reads and `Reclaim.KeyWritten` for what is written |
| `Preservation.SettledKeeps` | src/compaction.rs:1814-2091 | from the first settled version of a key on, what the loop writes over any older data is equivalent to what it read, operand folding, masking and bottom dropping included |
| `Preservation.RunSource` | src/compaction.rs:1814-2091 | the loop writes only at sequences it read |
| `Preservation.RunShape` | src/compaction.rs:1814-2091 | what the loop writes for a key is again one key, newest first |
| `KeyTheorem.AboveOldest` | src/compaction.rs:1228-1250 | above the oldest snapshot the history keeps every version, but for expired puts a bottom job drops |
| `KeyTheorem.AtOldest` | src/compaction.rs:1207-1260 | at the oldest snapshot, the history before and after are equivalent |
| `KeyTheorem.KeyPreserved` | src/compaction.rs:1207-1260 | for a clean key, every read at or above the oldest snapshot and from the job's clock on is unchanged, over any older data and under any newer operands |
| `KeyTheorem.KeyExact` | src/compaction.rs:1245 | reads of a key are preserved if and only if the job drops no expired put over something readable |
| `Counterexamples.ExpiredPutUncovers` | src/compaction.rs:1245 | a job that drops a recent expired put makes an older value readable again, for every operator |
| `Fragments.VisibleSeq` | src/range_tombstone.rs:107-109 | the newest sequence of a stack at or below the snapshot, or none |
| `Fragments.CoveringSeqIn` | src/range_tombstone.rs:633-652 | binary search over disjoint fragments finds the newest visible sequence that covers the key |
| `Fragments.FragmentSpans` | src/range_tombstone.rs:438-512 | for any overlapping spans, the fragments are sorted, disjoint, in bounds and coalesced, and cover each key of the interval with exactly the sequences the spans did |
| `Fragments.ExplodeKeepsCovers` | src/range_tombstone.rs:540-552 | exploding fragments into spans keeps what covers each key |
| `Fragments.RetainedMeaning` | src/compaction.rs:1591-1603 | the kept sequences of a stack: all above the oldest snapshot, and the newest at or below it unless the stack is droppable |
| `Fragments.RetainedKeepsCovers` | src/compaction.rs:1591-1603 | per key, thinning fragments keeps exactly the kept sequences of its coverage |
| `Fragments.ClipKeepsCovers` | src/compaction.rs:1609-1635 | clipping keeps coverage inside the interval and removes it outside |
| `RangeSet.RangeTombstoneSet.Add` | src/range_tombstone.rs:212-244 | one span more in start order, the prefix maxima kept, and exactly its keys gain its sequence |
| `RangeSet.RangeTombstoneSet.CoveringSeq` | src/range_tombstone.rs:248-272 | the backward scan that stops at the first prefix maximum at or below the key still finds the newest visible span over it |
| `MergeInputs.SmallestInput` | src/compaction.rs:1665-1690 | the input whose head comes first; on equal heads, the earliest input |
| `MergeInputs.InputCursors.Next` | src/compaction.rs:1814-1900 | successive heads, duplicates skipped, are the sorted merge of all inputs within the span; at the end nothing is missing |
| `MergeInputs.MergedSorted` | src/compaction.rs:1665-1690 | the merged stream is strictly in internal order |
| `MergeInputs.MergedPoints` | src/compaction.rs:1814-1900 | the merged stream holds, per key, exactly what the inputs hold |
| `RunSpan.SpanMerge.Process` | src/compaction.rs:1900-2012 | one merged version through mask, retention and pending fold moves loop state and output as one step of the rewrite |
| `RunSpan.SpanMerge.Flush` | src/compaction.rs:2031-2091 | the pending operands leave as one folded put or as they are, or the operator fails and nothing is pending |
| `RunSpan.SpanFragments` | src/compaction.rs:1568-1603 | the job's coverage over the span and the fragments it retains, per key |
| `RunSpan.RunOneSpan` | src/compaction.rs:1814-2012 | one span fails exactly when the rewrite of its stream fails; otherwise its files hold exactly the rewrite's output and the retained coverage, cut by size and partition as the rules say |
| `OutputBuilder.CompactionOutputBuilder.FinishCurrent` | src/compaction.rs:1395-1438 | closing a file stamps its bounds and clips its fragments; files so far ascend, hold one partition each, and tile the span up to the next one |
| `OutputBuilder.CompactionOutputBuilder.MustCut` | src/compaction.rs:1441-1454 | a cut is due exactly when the partition name or boundary changes, or the size limit was reached and a new key begins |
| `OutputBuilder.CompactionOutputBuilder.Write` | src/compaction.rs:1496-1531 | any write in internal order keeps the builder's invariant, size and cut rules included, and appends one version |
| `OutputBuilder.CompactionOutputBuilder.Finish` | src/compaction.rs:1533-1544 | the files together hold the written versions in order, strictly ascending and single-partition, with fragments clipped to tile the span; inside a file the bytes before each new key are below the limit, and a file ends only where its bytes reach the limit or the partition changes |
| `OutputBuilder.TilesSpan` | src/compaction.rs:1609-1635 | clipped fragments of ascending files cover each key of the span exactly as the unclipped fragments do |
| `OutputBuilder.OwnInterval` | src/compaction.rs:1320-1323 | every file after the first has its fragments between its own first key and the next file's |
| `Projection.RunProjects` | src/compaction.rs:1814-2012 | the rewrite of a whole stream, looked at for one key, is the rewrite of that key's versions alone |
| `JobTheorem.JobIsKeyRun` | src/compaction.rs:1736-1785 | a job is a run of the one-key rewrite on every key, with its inputs' and outputs' histories as before and after |
| `JobTheorem.JobPreserves` | src/compaction.rs:2569-2680 | a clean job changes no read of any key at or above its snapshot, over any older data |
| `JobTheorem.JobExact` | src/compaction.rs:2569-2680 | a job preserves every read of a key if and only if the key is clean |
| `JobTheorem.UnexpiredClean` | src/compaction.rs:1245 | a job above the bottom, or over nothing expired, is clean |
| `JobTheorem.JobPoints` | src/compaction.rs:1814-2012 | outputs hold points only where inputs held points |
| `JobTheorem.JobShrinks` | src/compaction.rs:1814-2012 | outputs say nothing at a sequence at which the inputs said nothing |
| `Reclaim.SettledWritten` | src/compaction.rs:1814-2012 | from any state inside a key's settled versions, the loop writes the operands down to the first base and that base, folded where the job folds, and nothing under it |
| `Reclaim.KeyWritten` | src/compaction.rs:1207-1260 | what the loop writes for a key is a closed form of its versions: newer ones but for expired puts, then the settled form; it fails exactly when that fold fails |
| `Reclaim.KeyReclaims` | src/compaction.rs:1231-1250 | no version under the first settled base, none under the mask; at the bottom no expired put, no settled delete but one right under a written operand, and after folding no settled operand but over a put that expires later |
| `Reclaim.JobReclaims` | src/compaction.rs:1814-2012 | the same for every key of every job: its output is the closed form and is tight |
| `Reclaim.DeletesLeave` | src/compaction.rs:1238-1243 | a bottom job over a key without operands leaves no settled delete of it |
| `Reclaim.FailsExactly` | src/compaction.rs:1814-2012 | a merge fails if and only if the operator refuses the operands of some key |
| `Spans.RunConcat` | src/compaction.rs:2281-2318 | cutting a sorted stream at a key and rewriting the halves apart gives the rewrite of the whole, failures included |
| `Spans.StreamSplits` | src/compaction.rs:1814-1900 | the merged streams of two adjoining spans are the merged stream of their union |
| `Spans.BuiltLevel` | src/compaction.rs:2683-2689 | the files of a span are a sorted disjoint level inside the span |
| `Spans.RunSpans` | src/compaction.rs:2281-2400 | running any ascending plan span by span fails exactly when one unbounded run fails, and otherwise gives a sorted disjoint level, numbered consecutively from the next id, that holds what one unbounded run writes; no file goes on past a cut, and none is cut but by size, partition or plan |
| `PlanSpans.Candidates` | src/compaction.rs:2150-2204 | the split points are exactly the offered keys inside the job that pass the partition screen, in strict order; none under a partitioned custom order |
| `PlanSpans.ScreenedExact` | src/compaction.rs:2182-2193 | a cut that halves no partition always passes the screen; where partitions have no holes, only such cuts do |
| `PlanSpans.ScreenExact` | src/compaction.rs:2182-2193 | the screen lets no halving cut by if and only if every partition is a contiguous range of keys |
| `PlanSpans.NestedHalved` | src/config.rs:1691-1697 | with one prefix rule nested in another, the inner partition's start passes the screen and halves the outer partition |
| `PlanSpans.Nearest` | src/compaction.rs:2240-2247 | the first unchosen candidate whose weight is nearest the goal |
| `PlanSpans.Sample` | src/compaction.rs:2232-2250 | exactly the wanted number of candidates, in order: the k-th taken is the first nearest the k-th even byte fraction among those left |
| `PlanSpans.PickIn` | src/compaction.rs:2248-2249 | what is sampled is exactly what stands at the chosen positions |
| `PlanSpans.DropEmpty` | src/compaction.rs:2252-2271 | a candidate stays a cut exactly when some input has keys between it and the cut before |
| `PlanSpans.Plan` | src/compaction.rs:2141-2272 | at most the allowed spans, strictly ascending, inside the job, every cut screened; every splitting key is a candidate, all are kept or those at the even picks are, and a kept one is a cut exactly when some input has keys since the cut before; no partition halved where partitions are contiguous |
| `PlanSpans.PlanUnique` | src/compaction.rs:2141-2272 | that determines the cuts: a job has one plan |
| `PlanSpans.BytesExact` | src/compaction.rs:2221-2231 | weights saturated table by table are the saturated sums over the tables below |
| `PlanSpans.SpanAttained` | src/compaction.rs:2199-2201 | both ends of the job's span are the ends of some input |
| `Ranking.RatioChains` | src/compaction.rs:967-1006 | cross-multiplied ratios form a total preorder, zero denominators included |
| `Ranking.SortRanks` | src/compaction.rs:967-1006 | the ranking is a permutation in exact ratio order, then by tie-breakers |
| `Ranking.CyclicDistinct` | src/compaction.rs:990-1004 | two candidates at one cyclic distance are the same candidate |
| `Ranking.OverlapExact` | src/compaction.rs:967-1006 | the overlap saturated table by table is the saturated sum over the tables that meet the candidate |
| `Ranking.RankCandidates` | src/compaction.rs:967-1006 | every candidate once, scored by the bytes it meets over its own, in ratio and then cyclic order from the start |
| `Ranking.DenseIff` | src/compaction.rs:619-638 | the density candidates are exactly the eligible tables of every level: enough entries, at or past the trigger, not foreign, and at the bottom old enough to thin out |
| `Ranking.DenseTables` | src/compaction.rs:611-647 | every eligible table once, by exact density, ties to the shallower level and then the lower id |
| `Ranking.FirstUsable` | src/compaction.rs:849-865 | the first usable candidate is the best of all usable ones; none is taken only if none is usable |
| `Levels.Install` | src/compaction.rs:2413-2463 | every level loses exactly the inputs by id; the target gains the outputs, sorted by first key |
| `Levels.InstallMembers` | src/compaction.rs:2413-2463 | a table is in a level afterwards if and only if it was there and is no input, or it is an output and this is the target |
| `Levels.SortPermutes` | src/compaction.rs:2441 | sorting a level loses and repeats no table |
| `Levels.SortLevel` | src/compaction.rs:2441 | pairwise disjoint tables sorted by first key are a sorted disjoint level |
| `Levels.Rollback` | src/compaction.rs:2475-2521 | the loop drops the outputs and puts each missing input back at its own level |
| `Install.InstallKeepsLevel` | src/compaction.rs:2413-2463 | installing a job's outputs beside tables that lie beside its inputs leaves the level sorted and disjoint |
| `Rollback.RollbackRestores` | src/compaction.rs:2475-2521 | install, flushes, then rollback gives every level back with the flushes on L0, when the job lists its L0 inputs as L0 has them |
| `Rollback.RollbackOrder` | src/compaction.rs:804 | as jobs are built, L0 comes back as it was if and only if the job took at most one L0 table |
| `Counterexamples.RollbackReorders` | src/compaction.rs:2507-2509 | every job over two disjoint L0 tables, installed and rolled back, leaves them in reverse |
| `Counterexamples.RollbackInstance` | src/compaction.rs:804 | there is such a job |
| `Engine.SourceIff` | src/column_family.rs:1909-1937 | the listed sources are the active, sealed and on-disk ones |
| `EngineFacts.WalkRemove` | src/excise.rs:103-123 | removing what lies under a newer base changes no walk |
| `EngineFacts.DbValue` | src/column_family.rs:1992-2037 | whatever a source says of a key is what the database says |
| `EngineSteps.CommitKeeps` | src/column_family.rs:1219-1292 | a commit newer than the log keeps the invariant |
| `EngineSteps.RotateKeeps` | src/column_family.rs:1296-1420 | sealing the memtable keeps the invariant |
| `EngineSteps.FlushKeeps` | src/column_family.rs:1462-1482 | publishing the oldest sealed memtable as the newest L0 table keeps the invariant, also while jobs are in flight |
| `EngineFinish.DoneTree` | src/compaction.rs:2413-2463 | after an install, newer data still sits above older data, within L0 and between levels |
| `EngineFinish.NumberedMayFinish` | src/compaction.rs:2569-2680 | what a span run returns, numbered past every live id, is a result the engine may install |
| `EngineReads.SwapKeepsReads` | src/compaction.rs:2413-2463 | replacing a job's inputs by its outputs in a running database changes no read, with newer sources above and older ones below |
| `EngineJobs.PickInPlace` | src/compaction.rs:720-907 | every job the pickers build, at the moment it is built, has only newer data above it at or over its target, lies beside the rest of its target, and has nothing under it if it is a bottom job |
| `EngineJobs.LocksBeside` | src/range_lock.rs:60-97 | locking the hull of the inputs' point bounds is enough: two unconflicting jobs share no table and lie beside each other, fragments included |
| `Engine.LocksAttained` | src/range_lock.rs:60-97 | the locked range is the hull: both its ends are inputs' keys |
| `EngineJobs.CrossInPlace` | src/compaction.rs:2413-2463 | one job's install leaves every other job in flight in place |
| `EngineTheorem.PickKeeps` | src/compaction.rs:1009-1031 | starting a job whose locks conflict with no other keeps the invariant |
| `EngineTheorem.FinishKeeps` | src/compaction.rs:2569-2680 | finishing any job in flight keeps the invariant: levels, order, the log and the other jobs |
| `EngineTheorem.FinishReads` | src/compaction.rs:2569-2680 | finishing a job that is clean at a key changes no read of that key at or above the oldest snapshot |
| `EngineTheorem.ExciseSame` | src/excise.rs:103-123 | dropping tables whose every key is under a newer settled range delete changes no chain at or above the snapshot |
| `EngineTheorem.ExciseKeeps` | src/excise.rs:266-333 | excising keeps the invariant, also while jobs are in flight |
| `EngineTheorem.StepKeeps` | src/compaction.rs:293-370 | every enabled event keeps the invariant, whatever the merge operator and whether or not jobs are clean |
| `EngineTheorem.StepReads` | src/compaction.rs:293-370 | every enabled event keeps the reads of a key at which the jobs in flight are clean |
| `EngineTheorem.ReadsAreTheLog` | src/compaction.rs:2732-2735 | after every run whose jobs are clean at a key, every read of that key at or above the oldest snapshot equals the read of the log of all commits; bottom dropping brings nothing back |
| `EngineLedger.LogIsCommitted` | src/column_family.rs:1219-1292 | the log is exactly the batches the run committed, in order |
| `EngineLedger.ReadsAreTheCommits` | src/compaction.rs:2732-2735 | after every run whose jobs are clean at a key, every read of it at or above the oldest snapshot equals the read of what the run committed |
| `EngineLedger.MemtablesConserved` | src/column_family.rs:1296-1482 | every memtable a run sealed was flushed or is still sealed |
| `EngineLedger.JobsConserved` | src/compaction.rs:1009-1031 | every job a run picked was finished, failed or is still in flight |
| `FlushTable.Flushed` | src/column_family.rs:1436-1456 | the flushed table is well formed and says of each key what the memtable said; no table only for an empty memtable |
| `FlushTable.FlushedPublishes` | src/column_family.rs:1462-1482 | a flushed table under a fresh id is one the engine may publish |
| `Rotation.MoveKeeps` | src/column_family.rs:1219-1420 | any move of any thread, failed appends, torn or not, and abandoned flushes included, keeps the invariant: paired WAL and memtable, seal order, counters, one flusher per memtable, quiet retirement |
| `Rotation.Protocol` | src/column_family.rs:1219-1521 | every interleaving of any number of threads from a fresh family keeps it |
| `Rotation.OnePlace` | src/column_family.rs:1296-1482 | a batch is in one memtable, and that memtable is active, sealed or published, exactly one of them |
| `Rotation.SealedFrozen` | src/column_family.rs:1296-1420 | no move of any thread changes a sealed or published memtable |
| `Rotation.RetiredIsQuiet` | src/column_family.rs:3207-3252 | from the return of a retire to its abort no thread prepares, drains or flushes |
| `RotationRuns.InsertLands` | src/column_family.rs:1260-1280 | an insert appends the thread's batch to the active memtable, and no move changes any memtable otherwise |
| `RotationRuns.NothingLost` | src/column_family.rs:1219-1482 | after every run the batches inserted by any thread are exactly the batches in memtables, each in one memtable, in that memtable's WAL, and active, sealed or published |
| `RotationRuns.NothingEmptySealed` | src/column_family.rs:1318-1327 | after every run no memtable that was sealed or published is empty |
| `RotationRuns.DrainShrinks` | src/column_family.rs:1377-1380 | while a rotation drains, no writer enters |
| `RotationRuns.OnlyOpenedWritten` | src/column_family.rs:1340-1396 | after every run only WALs that opened hold records: after a failed opening nothing is written until the next rotation |
| `RotationRuns.DueKept` | src/column_family.rs:1404-1420 | every move but a dropped flush leaves each sealed memtable queued or in some thread's hands |
| `RotationRuns.OlderUnderWay` | src/column_family.rs:1492-1494 | where jobs are in seal order, every memtable older than one being flushed is being flushed too |
| `RotationRuns.OrderExact` | src/column_family.rs:1404-1420 | a move breaks the seal order of jobs if and only if it sends a memtable while an older one is sealed and unsent |
| `RotationRuns.NothingForgotten` | src/column_family.rs:1296-1521 | after every run that drops no flush no sealed memtable is forgotten, and if memtables were sent in order a flush waits only for flushes under way |
| `RotationRuns.Overtaken` | src/column_family.rs:1400-1420 | a run after which the only flusher waits for a memtable that is behind it in the queue |
| `PointRead.PointReadCandidate.Consider` | src/column_family.rs:263-278 | the candidate in place becomes the considered one, whose meaning `PointRead.ConsideredShows` gives |
| `PointRead.PointReadCandidate.Mask` | src/column_family.rs:302-316 | the candidate in place becomes the masked one, whose meaning `PointRead.MaskedShows` gives |
| `PointRead.ConsideredShows` | src/column_family.rs:263-300 | considering a source makes the candidate show the newest of all versions seen, whatever the order of sources |
| `PointRead.SkippedShows` | src/column_family.rs:2638-2642 | a candidate newer than a table's greatest sequence already shows what reading the table would |
| `PointRead.MaskedShows` | src/column_family.rs:302-316 | masking by the newest covering sequence shows the history with all covering deletes in it |
| `ChainFold.FoldChain` | src/column_family.rs:542-585 | folding gathered versions in any order, repeats included, resolves their walk |
| `ChainFold.GatheredWalk` | src/column_family.rs:520-540 | cutting each source at its first base loses nothing of the whole chain |
| `GetImpl.CoveringRangeSeq` | src/column_family.rs:1952-1990 | the newest visible range delete over the key in all sources |
| `GetImpl.ConsiderTables` | src/column_family.rs:1992-2037 | with or without the early exit, the candidate shows every table's versions |
| `GetImpl.ResolvePoint` | src/column_family.rs:2208-2242 | the candidate shows the newest version of the key over all sources and range deletes |
| `GetImpl.FoldPointChain` | src/column_family.rs:2104-2142 | the fold above the newest covering delete is the reference read |
| `GetImpl.NewestAnswers` | src/column_family.rs:2164-2182 | unless the newest version is an operand, it alone decides the read |
| `GetImpl.Get` | src/column_family.rs:2150-2182 | the read equals the reference read over all sources, early exit or not, with no assumption that position orders sequences |
| `GetInto.BufCandidate.Offer` | src/column_family.rs:414-427 | replacing the winner's bytes in the shared buffer keeps prefix and winner |
| `GetInto.BufCandidate.ProbeTable` | src/column_family.rs:468-488 | appending a table's value and then keeping or draining it keeps prefix and winner |
| `GetInto.GetInto` | src/column_family.rs:2184-2203 | a found value is appended to whatever the buffer held; on a miss or an operator error the buffer is as it was |
| `Lookup.FindOverlappingAt` | src/column_family.rs:1875-1892 | binary search finds the landing position and the table whose bounds hold the key |
| `Lookup.PointHit` | src/column_family.rs:1814-1847 | in a searchable level, the table that holds the key is the hit |
| `Lookup.CoverFound` | src/column_family.rs:1849-1873 | in a searchable level, a table that covers the key is the hit or the gap owner |
| `Lookup.LookupExact` | src/column_family.rs:1849-1892 | a level serves every lookup if and only if no fragment starts before its table's first key and no table ends where another begins |
| `Lookup.RangeFreeServes` | src/column_family.rs:1875-1892 | a level without range deletes serves every lookup |
| `Counterexamples.EarlyFragment` | src/compaction.rs:1320-1323 | a file the builder returns for one point and one fragment: a well-formed level whose early fragment no lookup finds |
| `Counterexamples.TouchingTables` | src/compaction.rs:1430-1433 | the files the builders of two adjoining spans return: a well-formed level whose lookup of a present key lands on its neighbour |
| `Misread.MisreadRun` | src/column_family.rs:1849-1892 | a run from an empty family, every event enabled and every job clean, after which what a point read sees resolves to a value while the log says deleted |
| `Misread.Moves` | src/compaction.rs:720-866 | a job over the only table of a level into an empty one may be picked and finished at any time, and moves the table |
| `DbRead.PointReadSources` | src/column_family.rs:1909-1937 | the tables to probe and the tables to ask for coverage only, of the whole tree |
| `DbRead.TreeChosen` | src/column_family.rs:1909-1937 | where every level finds all it holds about the key, the chosen tables hold every point and every covering fragment of it |
| `DbRead.SearchableServes` | src/column_family.rs:1849-1892 | searchable levels find all they hold about every key |
| `DbRead.ChosenLive` | src/column_family.rs:1909-1937 | every chosen table is in the tree, whatever the levels |
| `DbRead.ChosenSees` | src/column_family.rs:1909-1937 | where every level finds all it holds about the key, the chosen sources say exactly what the database says of it |
| `ReadExact.ReadExact` | src/column_family.rs:1909-1937 | the chosen sources say exactly what the database says of the key if and only if every level finds all it holds about the key |
| `DbRead.ReadDb` | src/column_family.rs:2150-2182 | a point read of any ordered state is the reference read of the sources chosen for its key, and of the whole history where the levels serve the key |
| `DbRead.ReadAfterRun` | src/column_family.rs:2150-2182 | a point read of a served key after any run is the reference read of the commit log |
| `RangeFree.StepFree` | src/compaction.rs:2569-2680 | a step from a state without range deletes, other than a commit of one, leads to a state without range deletes |
| `RangeFree.ReadAfterPointRun` | src/column_family.rs:2150-2182 | after any run that deletes no range, a point read of any key is the reference read of the commit log |
| `BatchSources.GroupLevelHits` | src/column_family.rs:3767-3778 | grouping a level's hits by table loses, adds and reorders nothing for any one key |
| `BatchSources.BatchReadSources` | src/column_family.rs:2282-2341 | replayed for any one key, the groups are the tables a single read would choose, in its order |
| `BatchLookup.ResolveTableBatch` | src/column_family.rs:2423-2543 | lookups sorted by block leave every candidate showing what its key has in the table |
| `BatchLookup.VisitTables` | src/column_family.rs:2683-2790 | after all groups, every candidate has seen every one of its tables, early exits included |
| `MultiGet.BatchCovering` | src/column_family.rs:2348-2412 | per key, the newest visible range delete in memory and in its tables |
| `MultiGet.ResolveBatch` | src/column_family.rs:2683-2760 | every candidate shows what a single read of its key sees |
| `MultiGet.MultiGet` | src/column_family.rs:2683-2790 | in any ordered state each result is its key's single read, repeated keys included, and the reference read of the whole history where the levels serve the key |
| `ExcisePlan.CoveringOwners` | src/excise.rs:131-167 | owners are returned if and only if every key of the interval lies under a cover newer than the table; they alone suffice |
| `ExcisePlan.ShadowedIff` | src/excise.rs:103-123 | a key lies under a collected cover if and only if a settled range delete newer than the table covers it in the tree |
| `ExcisePlan.SpareOwners` | src/excise.rs:231-248 | the fixpoint ends with no dropped table owning a cover that justifies a drop, keeps every table that owned no such cover, and drops nothing when there was none |
| `ExcisePlan.ClaimsSpared` | src/excise.rs:165-191 | a droppable table lives on no named tier and shares no key with another database's table |
| `ExcisePlan.Plan` | src/excise.rs:169-248 | a table is planned if and only if it has no fragments, is not vetoed, and its whole key range is shadowed |
| `ExcisePlan.PlanExcises` | src/excise.rs:266-333 | any part of a plan whose locks conflict with no job is an excision the engine may make |
| `Varint.AppendUvarint` | src/encoding.rs:34-40 | appends the minimal encoding |
| `Varint.UvarintLen` | src/encoding.rs:44-51 | the length of the minimal encoding |
| `Varint.UvarintSlow` | src/encoding.rs:98-116 | the number the bytes spell, if within ten bytes and 64 bits |
| `Varint.Uvarint` | src/encoding.rs:59-95 | the fast paths give what the loop gives, on all inputs |
| `Varint.UvarintRoundTrip` | src/encoding.rs:34-116 | decoding inverts encoding before any suffix |
| `Varint.MinimalIff` | src/encoding.rs:59-116 | an accepted spelling is the minimal one if and only if it does not end in a redundant zero byte |
| `Varint.ShortestSpelling` | src/config_blob.rs:337-343 | an accepted spelling as long as the minimal one is the minimal one |
| `Varint.ZigZagInverts` | src/encoding.rs:118-134 | zig-zag is a bijection between the signed and the unsigned 64-bit numbers |
| `Varint.VarintRoundTrip` | src/encoding.rs:118-134 | signed decoding inverts signed encoding before any suffix |
| `Duplicates.FirstRepeatUnique` | src/entity.rs:525-556 | there is at most one first repeat, so both searches agree |
| `Duplicates.PairwiseScan` | src/entity.rs:526-534 | the pairwise scan finds the first repeat, or there is none |
| `Duplicates.Probe` | src/entity.rs:535-556 | linear probing ends at an equal name or at an empty slot with every slot before it passed |
| `Duplicates.ProbeMisses` | src/entity.rs:535-556 | a probe that ends at an empty slot passed every filed name it could have met, so the name is new |
| `Duplicates.FindDuplicate` | src/entity.rs:525-556 | the hash table finds the same first repeat, for every hash function |
| `Entity.RoundTrip` | src/entity.rs:176-371 | every legal column set decodes from its frame |
| `Entity.Canonical` | src/entity.rs:507-518 | an accepted frame holds legal columns, and is their encoding if and only if its directory varints are not padded |
| `Entity.PaddedFrameAccepted` | src/entity.rs:507-518 | a padded frame decodes and is not the encoding of its columns, for every checksum |
| `EntityCodec.EncodeEntity` | src/entity.rs:176-236 | encoding succeeds exactly on legal column sets and gives the frame; it is too large exactly when some columns with good names already overflow it, and any other refusal is an argument error |
| `EntityCodec.DecodeEntityInto` | src/entity.rs:257-371 | on any bytes: the frame's columns are appended, or an error of the right kind leaves the destination unchanged |
| `ConfigBlob.Encode` | src/config_blob.rs:73-315 | the canonical blob: fields away from their default and preserved entries, in tag order |
| `ConfigBlob.SortAscends` | src/config_blob.rs:295-306 | merging differing tags gives strictly ascending tags and the same entries |
| `ConfigBlob.Decode` | src/config_blob.rs:447-497 | the shrinking-slice loop gives what the blob means: its entries applied in order, or the first thing wrong, corruption or an unsupported format |
| `ConfigBlob.RoundTrip` | src/config_blob.rs:73-497 | for any tag table, decoding an encoding gives the normalized config and the unknown entries in place if no written field is refused by its reader, and corruption otherwise |
| `ConfigFields.ReadRules` | src/config_blob.rs:381-435 | the list cursor reads exactly the counted rules that fill the value, or refuses it |
| `ConfigFields.FieldRoundTrip` | src/config_blob.rs:330-379 | every field value of its type reads back normalized if it is in its reader's range and is malformed otherwise |
| `ConfigFields.ConfigRoundTrip` | src/config_blob.rs:73-629 | the same for the engine's own 35 tags: LZ4-fast becomes LZ4, a derived scheme its unresolved name, a period past 64 bits the longest one, and nothing else changes |
| `ConfigFields.ValidatedRoundTrip` | src/config.rs:1816-1925 | every config that passes validation reads back from its encoding |
| `ConfigFields.DefaultAdmitted` | src/config_blob.rs:73-315 | the default config is admitted and reads back as itself |
| `ConfigFields.DefaultEncoding` | src/config_blob.rs:73-315 | it encodes to the header and its codec list, every other field elided |
| `ConfigFields.NoRestartsRefused` | src/config_blob.rs:607-613 | the default config with a restart interval of zero encodes to a blob its decoder calls corrupt |
| `ConfigExact.FromIdExact` | src/config.rs:68-87 | a codec id names the codec that is written as it, and an id that no codec is written as names none |
| `ConfigExact.RulesExact` | src/config_blob.rs:381-437 | for every byte string: a rule list reads as these rules if and only if it spells their count and them, minimally or not, and nothing more |
| `ConfigExact.RulesRefused` | src/config_blob.rs:515-532 | it is unsupported if and only if an id that no codec has stands where a codec is due and all before it is well formed |
| `ConfigExact.FieldExact` | src/config_blob.rs:330-379 | whatever any field reads, from any bytes, is a value of its type in its range that reads back unchanged, and was written as exactly those bytes unless it is a rule list |
| `ConfigExact.FieldAccepts` | src/config_blob.rs:330-379 | a field but a rule list reads a byte string if and only if some value in range is written as it |
| `ConfigExact.KindsProper` | src/config_blob.rs:498-629 | every tag of the table is of a kind these statements apply to |
| `ConfigExact.FieldRefused` | src/config_blob.rs:495-629 | a refusal is unsupported rather than corrupt if and only if the bytes name an unknown mode or codec |
| `ConfigExact.NumbersRead` | src/config_blob.rs:500-629 | each number tag reads exactly its range: two counts of 32 bits, a positive block size, a restart interval from 1 to 1024, any 64-bit number elsewhere |
| `ConfigExact.ModesRead` | src/config_blob.rs:511-545 | exactly three sync modes and two compaction styles are read, and any other byte is unsupported |
| `BlobExact.DecodeExact` | src/config_blob.rs:447-497 | for every blob: it decodes to a config if and only if after the header it spells entries with ascending tags whose known ones read, and the config is the defaults with those over them and the unknown ones in order |
| `BlobExact.UnsupportedExact` | src/config_blob.rs:447-497 | it is unsupported if and only if the version is another, or the first entry that does not apply names something not implemented |
| `Comparators.Uint64IsByteOrder` | src/comparator.rs:94-107 | the fast comparison equals byte order on keys of any length |
| `Comparators.Int64ByRank` | src/comparator.rs:124-139 | the 8-byte shortcut agrees with the rank: negative keys just below the zero key, every other key where byte order puts it |
| `Comparators.Int64Total` | src/comparator.rs:120-139 | a total order on keys of mixed lengths that is equal only on identical bytes |
| `Comparators.CompareCaseInsensitive` | src/comparator.rs:152-165 | the index loop compares folded bytes, then raw bytes |
| `Comparators.FoldsLetters` | src/comparator.rs:150-165 | two bytes fold together exactly when they are equal or the two cases of a letter |
| `Comparators.FoldsAlike` | src/comparator.rs:150-165 | two keys fold together exactly when they are of one length and fold together byte by byte |
| `Comparators.CaseTogether` | src/comparator.rs:150-165 | whatever lies between two keys that differ only in case differs from them only in case |
| `Comparators.CaseTotal` | src/comparator.rs:146-165 | a total order that is equal only on identical bytes |

## Left out

- JobTheorem.JobPreserves: asks that the job be clean, because the property is false of other jobs; `JobTheorem.JobExact` is the exact statement.
- EngineTheorem.ReadsAreTheLog: asks that the jobs be clean at the key read, for the same reason, and that the merge operator be associative.
- DbRead.ReadAfterRun: asks that the levels serve the key, because the lookup misses data otherwise; `ReadExact.ReadExact` is the exact statement, and `DbRead.ReadDb` and `MultiGet.MultiGet` ask nothing of the levels.
- MultiGet.MultiGet: no read fails on I/O, so the per-key error slots are not modelled.
- RunSpan.SpanMerge.Process: a user's compaction filter is not applied, because a filter waives read preservation.
- RunSpan.RunOneSpan: neither filters nor cancellation by a failing sibling span are modelled; a cancelled span only fails a job that fails anyway.
- RunSpan.SpanFragments: range deletes are dropped at the bottom without the exception for foreign mounts, which the model does not have.
- EngineJobs.PickInPlace: choosing inputs and locking them is one step; the re-check that closes the race is not modelled.
- Spans.RunSpans: file ids are drawn in span order; concurrent spans draw them interleaved, and the install asks only that they be new and distinct.
- Ranking.DenseTables: the trigger comparison is over reals, so floating-point rounding at the threshold is not modelled.
- Rollback.RollbackRestores: levels are compared one by one, a trailing empty level aside; `Rollback.RollbackOrder` covers L0 jobs as they are built.
- ConfigFields.ConfigRoundTrip: floats are their 64 bits, text is bytes that pass a given UTF-8 test, and `usize` is 64 bits wide.
- Candidate vectors of a batch are sequences that the loops reassign, not shared mutable objects; a class would add only aliasing that the source does not have.
- Whole-level manual sweeps, which gather by point bounds alone, and rewrites within L0.
- Ingestion, FIFO eviction, foreign mounts and compaction filters, which waive read preservation.
- The unified memtable store and cached fragment snapshots.
- Files, fsync, WAL replay, the manifest and crash recovery; a catalog change is one step.
- Block layout, compression and Bloom filters; a table is its sorted versions and its fragments.
- Iterators and range scans.
- Write pacing, debt gauges, permits, cancellation of sibling spans, statistics and error texts.
- The codec of the fragment section, and column projection and sorting of entities: each would add easy members only.
