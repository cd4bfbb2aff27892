# Verified model of the LSM storage engine

A Dafny model of the storage engine and its term index, with proofs; `dafny verify dfyconfig.toml` checks
all of it.

The contract of the store is short: it is a map of the last acknowledged writes. Everything below is a
fast, layered or crash-exposed implementation of that map, and the project proves that it is one.

| layer | files |
|---|---|
| bytes, entries, checksums | `bytes`, `entries`, `hashing`, `hash_checks`, `decimal` |
| sorted runs and their merge, the specification of every iterator | `runs`, `merge_spec`, `cursors`, `cuts` |
| merge iterator, a hand-written heap over iterators | `merger` |
| skip list and memtable | `skiplist`, `upsert`, `memtable` |
| SSTable: blocks, sparse index, Bloom filter, building, reading | `block`, `sparse_index`, `bloom`, `table_format`, `builder`, `reader` |
| where each field of every format lies | `formats` |
| write-ahead log: frames, recovery of any bytes, damaged files, names of the files | `wal`, `wal_damage`, `log_names` |
| levels, picking, compaction | `levels`, `picker`, `picker_limits`, `compaction`, `compaction_levels`, `compaction_view`, `compaction_ends`, `compaction_output`, `table_iterators`, `compactor` |
| the engine as a machine of atomic steps, with crashes | `storage`, `disk_steps`, `machine`, `machine_steps`, `machine_compaction`, `machine_recovery` |
| what holds in every reachable state, and what does not | `safety`, `progress`, `trust`, `reopening`, `linearizability`, `flush_guard`, `crash_gaps`, `table_files` |
| the engine's methods, tied to the machine | `flusher`, `job_effects`, `engine`, `opener`, `scan`, `scan_iterators` |
| what callers of the engine see | `clients` |
| the term index | `search_index`, `search_contents`, `search` |

Conventions. A *run* is a strictly ascending list of entries: the content of a memtable or of a table.
`Find` looks a key up in a run, `FindFirst` in a stack of runs, `Merge` merges a stack so that the first
run wins. `Visible` is what a reader sees: a tombstone and a missing key are both absent. `LastOf(hist,
key)` is the last write of a key in a history. Classes keep their abstract value in ghost fields; every
method states its whole effect on it. In `machine.dfy` a state is `Up`, `Opening` or `Down`; an `Event`
is one atomic step of some goroutine, of a crash or of recovery, cut wherever the locks of the source let
another goroutine in. `Inv` is the invariant; `Safety.ReachableRefinesMap` is the main theorem about it. An
entry is `Storable` when its key has 1 to 2^16 - 1 bytes and its value fewer than 2^31; it is `Loggable` when
recovery accepts its frame. A log is *leaky* once recovery would not give back all that was appended to it, and
an *orphan* once its memtable was dropped by something other than its own flush.

## Where the code differs from its intent

The model follows the code. Each place has its own result:

- A compaction whose level-0 inputs come oldest first lets the oldest version win, and one out of level 6
  writes to a level no lookup reads. `CompactionView.CompactionKeepsViewExactly` says when a compaction of any
  kind changes no answer; `OldestFirstBringsBackOldValue` and `Level6LosesItsOutput` are two that do.
- `Flush` gives up its lock around its inner flush and then rotates without looking at `immMem` again. When
  the inner flush has rotated, or another writer has in the gap, that drops a memtable. And a flush clears
  `immMem` whatever stands there by then, so that one in progress drops the memtable just rotated out.
  `FlushGuard.FlushInAnySchedule` gives the exact condition for whatever runs in the gap and after it: lookups
  stay right if and only if there is no immutable memtable, or it has nothing to lose, and neither has the active
  one if a flush is in progress. The unguarded rotation is a step of the machine where that holds. Elsewhere
  `FlushLosesAWrite` (Flush alone), `OvertakenFlushLosesAWrite` (a put in the gap) and
  `FlushInProgressLosesAWrite` (another flush in the gap) are failures after reachable states.
- Nobody deletes the log of a memtable that such a rotation drops, though it had nothing to lose, and recovery
  replays it over newer tables. `CrashGaps.OrphanExactly` says when the disk still holds the map, and
  `CrashGaps.OrphanBringsBackOldValue` is a run after which it does not.
- The comment on the skip list's `Put` mentions a newer timestamp; the code replaces unconditionally, and
  the merger looks at priority before timestamp. "Newest" is the order of writes.
- The documentation promises that an incomplete trailing write is cut off. A torn frame that has some
  payload and declares more than the file's size is kept (`Wal.TornTailRecovery`). Later appends fill it up:
  they are never replayed, however many follow, unless the checksum of the mixture happens to fit, and then
  an entry is replayed that nobody wrote (`Wal.AppendAfterKeptTorn`). `CrashGaps.KeptTornLosesAWrite` is a run
  with a crash, a recovery and a write after which the disk lacks that write.
- `Write` accepts entries that recovery does not give back. It gives back what was written if and only if
  every key is shorter than 2^16 bytes and every payload at most 64 MiB (`Wal.ReplayGivesBackExactly`). An
  entry that is too large hides itself and all that follows; one whose key is too long is replayed under
  another key, a prefix of its own (`Wal.LongKeyReplays`). Data blocks have the same limit on keys
  (`Block.BlockRoundTrip`): such an entry is read back while it is in memory, but a lookup in its table never
  finds it (`TableFiles.BuildAndAsk`).
- Log files are listed by name, not by identifier as the comment says; from 10^6 on these differ
  (`LogNames.NameOrder`). With logs 999999 and 1000000 the older one is replayed last:
  `CrashGaps.SwappedExactly` says when that costs anything, `CrashGaps.MillionthLogBringsBackOldValue` is a run
  in which it does.
- The term index keeps each token of a record under its own key, so an identifier ingested twice can match a
  query that no record matches. `Search.IntersectionFiltersExactly`: it agrees with filtering on all queries
  if and only if any two records of one identifier have a record of that identifier that holds the tokens of
  both, at a time between theirs. Ingesting the same record again is harmless; `Search.IngestTwiceFromNothing`
  is a failure.
- With a level-0 trigger below 1 the compaction worker's loop never meets its exit test: it ends from any levels if
  and only if the trigger is at least 1 (`CompactionEnds.DrainEndsExactly`).

## Model

| member | source | states |
|---|---|---|
| Safety.ReachableRefinesMap | pkg/lsm/engine.go:237-642 | in every state reachable from an empty directory by any steps, crashes and recoveries, a running engine's layered lookup gives the last write of every key |
| Safety.ReachableDisk | pkg/lsm/engine.go:80-770 | in every reachable state levels 1 and up are disjoint; amid recovery and after a crash the disk holds the map of the history, and while the engine runs it does so whenever recovery would give back every log in full and none is an orphan |
| Trust.CarefulRunsGiveBack | pkg/wal/wal.go:247-341 | that is so in every run whose writes recovery accepts, whose crashes leave no torn frame that recovery keeps and which never rotates over an immutable memtable; then every crash is covered at which the logs' names are in order |
| Reopening.CrashAndReopen | pkg/lsm/engine.go:181-234 | in every such run, killed at any point with any first bytes of the frame in flight on disk: some steps open the engine again, and whichever do, every lookup gives the last of the acknowledged writes, with the one in flight exactly when its whole frame was written |
| Reopening.CrashLeaves | pkg/wal/wal.go:124-148 | a crash leaves the disk as it was, but for those first bytes at the end of the last log |
| Reopening.RecoveryCrashes | pkg/lsm/engine.go:181-234 | recovery may be killed at any of its steps, and from what it leaves some steps open the engine |
| Safety.RunKeeps | pkg/lsm/engine.go:80-770 | the invariant survives every run of enabled steps |
| Safety.StepKeeps | pkg/lsm/engine.go:80-770 | each single step of the engine, of a crash and of recovery keeps the invariant |
| Safety.InitialInv | pkg/lsm/engine.go:80-161 | an empty directory satisfies the invariant |
| Safety.StepKeepsLookups | pkg/lsm/engine.go:340-770 | rotation, every stage of flushing and every stage of compaction leave the answer for every key unchanged |
| Safety.CrashLosesNothing | pkg/lsm/engine.go:181-234 | crash with any part of a frame written, torn frames of the kept kind included, then recovery with any further crashes in the course of it: lookups give the acknowledged map, or that map with the one write in flight |
| Safety.RecoveryCompletes | pkg/lsm/engine.go:181-234 | from any state in the middle of recovery, undisturbed steps open the engine |
| Progress.JobFinishes | pkg/lsm/engine.go:541-770 | from any state, with no write in flight, the flush or compaction at hand can be brought to its end, and history and invariant stay |
| Progress.WritersGoOn | pkg/lsm/engine.go:237-337 | whatever the workers are in the middle of, a write can begin exactly when none is in flight, and end; a guarded rotation is possible exactly between writes with no immutable memtable |
| Progress.FlushGoesOn | pkg/lsm/engine.go:541-642 | a flush can start exactly when a memtable waits and the workers are idle; whatever the writers do it goes on, but for clearing the memtable, which waits for the write in flight alone |
| Progress.CompactionGoesOn | pkg/lsm/engine.go:714-770 | a harmless outcome can be committed at any time between jobs, and what follows is always possible |
| Safety.CommittedLogAddsNothing | pkg/lsm/engine.go:196-211 | recovering a log whose table the manifest already lists leaves every disk lookup as it was |
| Linearizability.GetIsLinearizable | pkg/lsm/engine.go:359-455 | whatever steps run between the memory phase and the disk phase of Get, rotations over an immutable memtable with nothing to lose among them, the result is the key's value in the map at some moment between them |
| FlushGuard.RotationKeepsExactly | pkg/lsm/engine.go:340-355 | at the moment of the rotation every lookup is kept if and only if every key of the immutable memtable is in the active one or reads the same from the tables |
| FlushGuard.FlushInAnySchedule | pkg/lsm/engine.go:541-670 | with any steps in the gap in which Flush holds no lock, other flushes among them: after its rotation lookups are right in every state of every continuation by steps of the machine if and only if there is no immutable memtable, or it has nothing to lose and, when a flush has taken a memtable and not yet cleared `immMem`, the active one repeats what that flush shows; then the invariant goes on. There is no immutable memtable exactly when the last rotation or drop was a drop, or there was neither and none before |
| FlushGuard.DropAfterRotation | pkg/lsm/engine.go:553-564 | while a flush has shown its table and not yet cleared `immMem`, rotating is right at once, and right after that flush's next step if and only if the active memtable repeated what lies below it |
| FlushGuard.FlushKeepsExactly | pkg/lsm/engine.go:645-670 | a Flush that nothing runs beside keeps every lookup if and only if it did not meet both an immutable memtable and a full active one, or the active one only repeated what lies below |
| FlushGuard.FlushLosesAWrite | pkg/lsm/engine.go:657-666 | a reachable state in which Flush, run alone, makes an acknowledged write unreadable |
| FlushGuard.OvertakenFlushLosesAWrite | pkg/lsm/engine.go:655-666 | steps from a reachable state after which it does so although its inner flush did not rotate: a put in the gap filled the memtable and rotated it |
| FlushGuard.FlushInProgressLosesAWrite | pkg/lsm/engine.go:553-666 | steps from a reachable state after which the immutable memtable has nothing to lose and the rotation is right, but the next step of the flush in progress makes an acknowledged write unreadable |
| FlushGuard.GuardedFlushKeeps | pkg/lsm/engine.go:645-670 | run alone, and in the other cases, Flush keeps the whole invariant and the history |
| FlushGuard.FlushesImmKeeps | pkg/lsm/engine.go:541-577 | a whole flushImmutable keeps invariant and history; a full active memtable has been rotated in its place |
| MachineSteps.EndWriteKeeps | pkg/lsm/engine.go:257-287 | appending the frame and putting the entry keeps memtable and history in step, and the log too unless it becomes leaky |
| MachineSteps.RotateKeeps | pkg/lsm/engine.go:340-355 | a guarded rotation keeps the invariant |
| MachineSteps.SafeRotationKeeps | pkg/lsm/engine.go:340-355 | so does one over an immutable memtable, when nothing is lost by it now or by a flush in progress |
| MachineSteps.TakeImmKeeps | pkg/lsm/engine.go:545-551 | so does a flush's reading of `immMem` |
| MachineSteps.BuildTableKeeps | pkg/lsm/engine.go:585-617 | writing the table file of the memtable that was read keeps the invariant, whether or not it is still the immutable one |
| MachineSteps.ListTableKeeps | pkg/lsm/engine.go:619-627 | so does the manifest edit that lists it, before lookups read it |
| MachineSteps.ShowTableKeeps | pkg/lsm/engine.go:629-635 | so does installing reader and level lists |
| MachineSteps.DropImmKeeps | pkg/lsm/engine.go:557-564 | so does clearing `immMem` afterwards, whatever memtable is there by then |
| MachineSteps.RemoveLogKeeps | pkg/lsm/engine.go:566-568 | so does deleting the log of the memtable that was read, even if others have been rotated out meanwhile |
| MachineCompaction.CompactKeeps | pkg/lsm/engine.go:714-729 | committing any harmless compaction, of either order and out of any level, keeps the invariant while lookups still read the old tables |
| MachineCompaction.ShowCompactedKeeps | pkg/lsm/engine.go:748-762 | so does installing the new readers and lists |
| MachineCompaction.UnlinkKeeps | pkg/lsm/engine.go:764-767 | so does unlinking each input file |
| MachineCompaction.CompactsFullyKeeps | pkg/lsm/engine.go:714-770 | a whole undisturbed harmless compaction keeps invariant and history |
| MachineCompaction.CompactsFullyReady | pkg/lsm/engine.go:714-770 | after a compaction of any kind, harmless or not, levels and readers are what the next one needs |
| MachineRecovery.CrashKeeps | pkg/lsm/engine.go:257-265 | whatever part of a frame reached the log, recovery will give back the acknowledged writes, with the write in flight if its whole frame did and recovery accepts it |
| MachineRecovery.LiveRepresents | pkg/lsm/engine.go:181-234 | logs and listed tables of a running engine, none of its logs leaky or an orphan, hold the map of the history |
| MachineRecovery.CrashInWrite | pkg/wal/wal.go:247-341 | a torn tail of any kind, kept ones included, leaves what recovery replays the acknowledged map |
| MachineRecovery.StartKeeps | pkg/lsm/engine.go:181-195 | listing the logs by name starts recovery with the oldest one, where names are in the order of identifiers |
| MachineRecovery.ListingIsById | pkg/wal/wal.go:357-382 | where names are in the order of identifiers, any listing in ascending order of names is the list by identifier |
| MachineRecovery.NamesInOrder | pkg/wal/wal.go:357-382 | they are below 10^6 |
| MachineRecovery.ReplayKeeps | pkg/lsm/engine.go:196-206 | recovering an older log keeps the invariant |
| MachineRecovery.SaveKeeps | pkg/lsm/engine.go:208-213 | so does writing its table |
| MachineRecovery.ListSavedKeeps | pkg/lsm/engine.go:208-213 | so does listing it; the tables then show all the log holds |
| MachineRecovery.RemoveOldestKeeps | pkg/lsm/engine.go:214 | so does deleting the log, flushed or empty |
| MachineRecovery.OpenLastKeeps | pkg/lsm/engine.go:215-233 | the last log becomes the active one with its entries in the active memtable |
| MachineRecovery.OpenFreshKeeps | pkg/lsm/engine.go:135-149 | with no log, a new one is opened |
| CrashGaps.OrphanExactly | pkg/lsm/engine.go:181-234 | after a safe rotation over an immutable memtable, whose log nobody deletes, and the flush of what it put there: the disk holds the map if and only if nothing of the dropped memtable had been overwritten by another value |
| CrashGaps.OrphanBringsBackOldValue | pkg/lsm/engine.go:645-670 | a run of puts and flushes, each right for every lookup, after which the disk holds an old value of a key |
| CrashGaps.SwappedExactly | pkg/lsm/engine.go:181-234 | if the two logs are replayed newer first, the disk gives back the map if and only if nothing of the older one had been overwritten by another value |
| CrashGaps.MillionthLogBringsBackOldValue | pkg/wal/wal.go:357-382 | a reachable state with logs 999999 and 1000000 whose listing by name makes recovery give back an old value |
| CrashGaps.KeptTornExactly | pkg/wal/wal.go:273-286 | a write behind a torn frame that recovery kept, not completing it, is on disk if and only if it changes nothing in the map |
| CrashGaps.KeptTornLosesAWrite | pkg/wal/wal.go:247-341 | a reachable state, after a crash in a write, recovery and one more write, whose disk lacks that write |
| DiskSteps.LogRewritten | pkg/lsm/engine.go:257-265 | one more frame in the last log is one more write in the map the disk represents |
| DiskSteps.TableListedFind | pkg/lsm/engine.go:619-627 | a table listed at the end of level 0 is found first and the rest of the disk behind it |
| DiskSteps.TableListedSame | pkg/lsm/engine.go:619-627 | listing a table built from a log that is still there changes no durable answer, and the tables then show all of that log |
| DiskSteps.LogRemovedSame | pkg/lsm/engine.go:566-568 | deleting the oldest log is safe once the tables show all it holds |
| Storage.PushedFind | pkg/lsm/engine.go:397-419 | a table at the end of level 0 hides everything else on disk, and nothing more |
| Storage.DiskFindFrame | pkg/lsm/engine.go:393-454 | lookups depend on listed tables only, so orphaned files do not matter |
| TableFiles.EveryTableFits | pkg/sstable/builder.go:110-191 | in every reachable state each table of fewer than 2^32 entries fits the fields of its files, for block sizes up to 2^30 |
| TableFiles.ReadListed | pkg/sstable/reader.go:111-158 | so its bytes, built and opened, give for each key what the machine finds in the table |
| TableFiles.BuildAndAsk | pkg/sstable/reader.go:111-158 | any run of fitting lengths, built, opened and asked: with keys shorter than 2^16 bytes each answer is the run's, a longer key is never found, and so its answer is not the run's |
| Engines.Engine.Put | pkg/lsm/engine.go:237-287 | refused with "empty key" or "closed" exactly in those cases, which changes nothing; otherwise, for keys and values of any length, the history's map has the value under the key and is else as before, and the invariant holds, if the memtable that a stalled put flushes is one that a table gives back |
| Engines.Engine.Delete | pkg/lsm/engine.go:290-337 | refused in the same cases; otherwise the key's last write is a tombstone, so that the map lacks the key and is else as before |
| Engines.Engine.Write | pkg/lsm/engine.go:249-287 | adds only the one entry, whatever its lengths; a full memtable behind an unflushed one makes it wait, after which the full one awaits its flush and the new one holds this entry alone; otherwise the entry joins the active memtable; on return a memtable that has reached its limit is active only if another one awaits its flush, and one rotated out had reached it |
| Engines.Engine.RotateMemTable | pkg/lsm/engine.go:340-355 | takes the machine's rotation step, including when it is unguarded |
| Engines.Engine.FlushMemTableDirect | pkg/lsm/engine.go:580-642 | an empty memtable changes nothing; otherwise its run becomes a table under a fresh identifier at the end of level 0, with its reader |
| Flusher.WriteTable | pkg/lsm/engine.go:580-642 | the same on any manifest, files and readers, as recovery uses it |
| Engines.Engine.FlushImmutable | pkg/lsm/engine.go:541-577 | takes exactly the machine's steps of a flush, rotating a full active memtable on the way |
| Engines.Engine.Flush | pkg/lsm/engine.go:645-670 | run alone: the effect of Flush as written; the invariant and history when it did not meet both an immutable and a full active memtable |
| JobEffects.FlushImmEffect | pkg/lsm/engine.go:541-577 | what a flush of the immutable memtable has done in the end: its table, if it held anything, listed last in level 0 and open for readers, the memtable and its log gone and no other, a full active memtable rotated behind it |
| JobEffects.FlushEmpties | pkg/lsm/engine.go:645-670 | whatever it finds, Flush leaves both memtables empty |
| JobEffects.FlushedToTables | pkg/lsm/engine.go:645-670 | but for the failing case the tables alone then answer every lookup with the last write |
| Engines.Engine.Compact | pkg/lsm/engine.go:714-770 | runs exactly when a compaction is due; the outcome is the picked task's; invariant and history are kept when the task is harmless, as it is for newest-first listings and targets below level 7 |
| JobEffects.CompactEffect | pkg/lsm/engine.go:714-770 | what a compaction has done in the end: which tables each level lists, which are open and which files are there, with memtables, logs and history as before |
| Engines.Engine.DrainLevel0 | pkg/lsm/engine.go:695-704 | with a trigger of at least 1 the worker's loop ends, level 0 then being below the trigger |
| MachineCompaction.IdleIsCompactable | pkg/lsm/engine.go:714-726 | an engine between jobs may compact |
| Engines.Engine.SearchMemory | pkg/lsm/engine.go:366-391 | the memory phase finds what the machine's memory phase finds |
| Engines.Engine.SearchTables | pkg/lsm/engine.go:393-454 | the loops over level 0 backwards and levels 1 to 6, with the break, find what the level lists hold |
| Engines.Engine.Get | pkg/lsm/engine.go:359-455 | `Ok(v)` if and only if the key is not empty, the engine is open and the key's last write is a put of v; otherwise "empty key", "closed" or "not found", in this order |
| Engines.Engine.Scan | pkg/lsm/engine.go:459-517 | the iterator, taken up to the end of the range, shows the scan's pairs |
| Clients.PutThenGet | pkg/lsm/engine.go:237-455 | after a put the key is read with that value, and every other key as before |
| Clients.DeleteThenGet | pkg/lsm/engine.go:290-517 | after a delete the key is not found, no scan of any range shows it, and every other key is read as before |
| Clients.Session | pkg/lsm/engine.go:237-455 | the answers to any sequence of puts, deletes and gets are those of a map |
| Scans.ScanIsMap | pkg/lsm/engine.go:459-517 | what a scan shows is the map of the history within the range, both ends included: its pairs, no others, ascending |
| Scans.ScanAgreesWithView | pkg/lsm/engine.go:459-517 | those pairs are strictly ascending, without tombstones, and hold a key exactly when it lies in the range and its last write is a put, with that value |
| Scans.ScanFinds | pkg/lsm/engine.go:488-509 | leaving out the tables of levels 1 and up whose key range misses the scan's changes nothing inside the range |
| Scans.UpToFind | pkg/server/handlers.go:265-275 | stopping behind the end key drops exactly the keys above it |
| ScanIterators.MergeFromStart | pkg/lsm/engine.go:511-516 | the merged iterator, tombstones dropped, starts at the start key |
| Opener.Open | pkg/lsm/engine.go:80-161 | on any directory the engine can have left behind, the opened engine's lookups are the last writes of the history |
| Opener.FlushOlderLogs | pkg/lsm/engine.go:196-214 | all logs but the last are replayed, flushed and deleted in order, the recovery invariant holding after each |
| Opener.ReplayLog | pkg/lsm/engine.go:196-206 | the memtable holds the last write of each key of the log, the file is as recovery leaves it |
| Merger.MergedIterator.constructor | pkg/core/merger.go:24-40 | the iterator shows the merge of what its inputs still had to show, first input first, minus tombstones when asked |
| Merger.MergedIterator.Next | pkg/core/merger.go:152-156 | moves on by exactly one shown entry |
| Merger.MergedIterator.Seek | pkg/core/merger.go:159-170 | leaves exactly the merged entries at or above the target, from wherever it stood |
| Merger.MergedIterator.TakeLeast | pkg/core/merger.go:111-134 | the root and the discarded duplicates are one step of the merge: its first entry, and the merge of the rest |
| Merger.MergedIterator.NextShown | pkg/core/merger.go:103-144 | tombstones are skipped when asked, until an entry is shown or nothing is left |
| Merger.MergedIterator.DiscardDuplicates | pkg/core/merger.go:126-134 | every input loses the key just shown, no other key |
| Merger.MergedIterator.Up | pkg/core/merger.go:57-66 | restores the heap order and keeps the items |
| Merger.MergedIterator.Down | pkg/core/merger.go:68-86 | restores the heap order below a changed root and keeps the items |
| Merger.MergedIterator.Push | pkg/core/merger.go:88-91 | adds one item to an ordered heap |
| Merger.MergedIterator.Pop | pkg/core/merger.go:93-100 | takes one item off an ordered heap |
| Merger.MergedIterator.Lesser | pkg/core/merger.go:42-51 | the order of keys, then of priorities, then newer timestamps |
| Merger.RankOrder | pkg/core/merger.go:42-51 | that order is asymmetric and its negation transitive |
| Merger.RootIsLeast | pkg/core/merger.go:57-86 | in heap order nothing ranks before the root |
| MergeSpec.MergeUnrolls | pkg/core/merger.go:103-144 | the merge starts with the least head of the first run that has it, and goes on without that key anywhere |
| MergeSpec.MergeFrom | pkg/core/merger.go:159-170 | seeking every run and merging is merging and then seeking |
| Runs.FindMerge | pkg/core/merger.go:103-144 | the merge holds, for each key, the entry of the first run that has it |
| Runs.MergeAscending | pkg/core/merger.go:103-144 | the merge is strictly ascending: no key twice |
| Runs.VisibleKeep | pkg/core/merger.go:136-138 | dropping tombstones changes nothing a reader sees |
| SkipLists.SkipList.Put | pkg/memtable/skiplist.go:67-110 | for every drawn height the list stays well-linked at all levels, holds the entry in place of the old one of its key or inserted in order, and counts nodes and bytes exactly |
| SkipLists.SkipList.Get | pkg/memtable/skiplist.go:113-129 | finds exactly what the list holds for the key |
| SkipLists.SkipList.Descend | pkg/memtable/skiplist.go:71-79 | at each level the search stops at the last node of that level before the key |
| SkipLists.SkipList.Splice | pkg/memtable/skiplist.go:100-104 | each level of the new node takes over its predecessor's link, no other link changes |
| SkipLists.SkipList.NewIterator | pkg/memtable/skiplist.go:143-159 | the snapshot holds all entries in key order |
| SkipLists.SkipList.LevelsNest | pkg/memtable/skiplist.go:18-52 | following the links of a level visits a strictly ascending sublist of the level below; level 0 visits everything |
| SkipLists.FootprintInserted | pkg/memtable/skiplist.go:106-109 | a new node adds its key, its value, 16 and 32 bytes and 8 per level to the estimate, wherever it goes |
| SkipLists.FootprintReplaced | pkg/memtable/skiplist.go:83-89 | a replaced entry changes the estimate by the difference of sizes |
| Upsert.PutIsMapUpdate | pkg/memtable/skiplist.go:65-110 | putting keeps a run ascending and changes the lookup of its own key only |
| Upsert.PutAllIsLastWrite | pkg/lsm/engine.go:200-203 | replaying a log into a memtable leaves the last write of each key |
| Upsert.MapIsLastWrites | pkg/lsm/engine.go:372-454 | the map a history describes has a key exactly when the key's last write is no tombstone, with that write's value |
| Cursors.Cursor.Seek | pkg/memtable/skiplist.go:180-195 | binary search leaves exactly the entries at or above the target |
| Cursors.Cursor.Next | pkg/memtable/skiplist.go:173-177 | moves on by one entry, and stays at the end |
| MemTables.MemTable.Put | pkg/memtable/memtable.go:35-37 | the map update; the size estimate changes by the difference of the values, or by key, value, 48 and 8 for each of 1 to 20 levels |
| Entries.DecodeEntryRoundTrip | pkg/core/entry.go:141-170 | for values under 2^32 bytes decoding gives back the encoded entry, whatever bytes follow, if and only if the key is shorter than 2^16 bytes |
| Entries.DecodesAsShortened | pkg/core/entry.go:92-170 | for a longer key it takes as many bytes of key and value for the key as the two length bytes say |
| Entries.EncodeTo | pkg/core/entry.go:92-108 | the first bytes of the buffer are the encoding; the caller's buffer is reused when it is large enough |
| Wal.EncodeFrameTo | pkg/core/entry.go:111-133 | the same for a frame: checksum, length, payload |
| Wal.WAL.Write | pkg/wal/wal.go:124-148 | a closed log refuses; otherwise exactly one frame is appended and counted |
| Wal.RecoverWithReport | pkg/wal/wal.go:228-346 | on any bytes: the replayed entries, the whole report and the file afterwards, as `WalDamage` spells them out |
| Wal.ReadFrame | pkg/wal/wal.go:255-333 | one turn of the loop accepts the frame, or names the damage and says whether it is cut off |
| Wal.ReplaysRun | pkg/wal/wal.go:228-346 | what is replayed is a run of acceptable frames of the reported length that cannot be made longer |
| Wal.ReplaysLongestRun | pkg/wal/wal.go:228-346 | every other run of acceptable frames from the start is a prefix of it |
| Wal.ReplayFrames | pkg/wal/wal.go:228-346 | frames written whole are replayed, in order, whatever follows them |
| Wal.ReplayFramesOfAny | pkg/wal/wal.go:228-346 | frames of any entries under 2^32 bytes: replay ends at the first over 64 MiB, and gives each entry before it as decoding makes it |
| Wal.ReplayGivesBackExactly | pkg/wal/wal.go:124-148 | recovery gives back what was written if and only if every key is shorter than 2^16 bytes and every payload at most 64 MiB |
| Wal.LongKeyReplays | pkg/core/entry.go:102 | a longer key is replayed as a prefix of itself, with a value that starts inside the key |
| Wal.TornTailRecovery | pkg/wal/wal.go:247-341 | after n whole frames and a torn one exactly the n entries are replayed; the file is cut back to them if and only if the torn frame is not one with payload bytes and a length beyond the file or the limit |
| Wal.AppendAfterTornTail | pkg/wal/wal.go:316-341 | once the torn tail is cut off, later appends are replayed after the old entries |
| Wal.AppendAfterKeptTorn | pkg/wal/wal.go:273-286 | once it is kept, later appends change nothing in what is replayed, if and only if the entry was over the limit, the file is still too short, the checksum of the filled-up payload differs or it does not decode; otherwise a mixed entry is replayed, and what follows it |
| Wal.KeptTornExists | pkg/wal/wal.go:273-286 | a file with such a tail: the first write, torn after one payload byte |
| Wal.OversizedNotAcceptable | pkg/wal/wal.go:273 | a frame over 64 MiB ends the replay |
| Wal.RecoveryIsIdempotent | pkg/wal/wal.go:228-346 | recovering any file twice replays the same entries and changes the file no further |
| WalDamage.CutOffExactly | pkg/wal/wal.go:247-341 | on any bytes: what follows the accepted frames is cut off if and only if it is no longer than a header, or declares a length within the limit and the file's size and nothing follows the frame so declared; else the file stays as it is |
| WalDamage.ReportExactly | pkg/wal/wal.go:255-341 | on any bytes: how many records and bytes the report counts, that it sees damage if and only if something is left over, at its start, and for which kinds the file was cut |
| WalDamage.DamageExactly | pkg/wal/wal.go:255-333 | which kind of damage, by declared length, checksum and payload |
| WalDamage.BadFrameAtEnd | pkg/wal/wal.go:305-333 | a whole last frame with a wrong checksum or payload is cut off, and what is appended later is replayed behind what stood before it |
| WalDamage.BadFrameInMiddle | pkg/wal/wal.go:305-333 | with anything behind such a frame the file stays as it is, and what stood before is replayed |
| WalDamage.FlippedByte | pkg/wal/wal.go:305-319 | any byte of any written frame's checksum or payload changed to any other: in the last frame that frame is cut off and later appends are replayed, in an earlier one the file stays and only what stood before is ever replayed |
| Hashing.Crc32DetectsByte | pkg/wal/wal.go:305-319 | strings that differ in one byte have different checksums |
| HashChecks.Crc32Value | pkg/core/entry.go:111-133 | check values of the CRC-32, of no bytes, of four and of five |
| HashChecks.Fnv64aValue | pkg/sstable/bloom.go:54-58 | check values of the FNV-64a |
| HashChecks.DoubleHashKeepsHash | pkg/sstable/bloom.go:54-73 | the two probe numbers lose nothing of the FNV hash: keys with the same two have the same hash, or mixes that differ in their high halves alone, 0 and the 1 that stands for it |
| LogNames.NameOrder | pkg/wal/wal.go:107-109 | two log names are in order if and only if the higher identifier, cut to as many digits as the lower one shows, is at least the lower one |
| LogNames.NamesFollowIds | pkg/wal/wal.go:357-382 | below 10^6 names are ordered as identifiers |
| LogNames.MillionthLogComesFirst | pkg/wal/wal.go:357-382 | log 1000000 is listed before log 999999 |
| Formats.EntryFields | pkg/core/entry.go:92-108 | the places of timestamp, type (1 for a put, 2 for a delete), lengths, key and value |
| Formats.FieldByte | pkg/core/entry.go:92-108 | a number's bytes, the most significant first |
| Formats.FramesInOrder | pkg/core/entry.go:111-133 | frame by frame, checksum, length and payload in the log's file |
| Formats.BlockFields | pkg/sstable/block.go:22-37 | record by record, length and encoding, and the checksum of all before it in the last four bytes |
| Formats.ChangedBlockRefused | pkg/sstable/block.go:40-56 | a block with any one byte changed to any other is refused |
| Formats.IndexFields | pkg/sstable/sparse_index.go:74-94 | the number of index entries, and the fields of each |
| Formats.FilterFields | pkg/sstable/bloom.go:102-110 | the fields of an encoded filter |
| Formats.LogNameSpelled | pkg/wal/wal.go:107-109 | "wal_", the six digits of an identifier below 10^6, ".log" |
| Block.Encode | pkg/sstable/block.go:22-37 | the bytes of the block |
| Block.Decode | pkg/sstable/block.go:40-103 | counting pass and filling pass agree on any bytes: the same entries or the same error |
| Block.BlockRoundTrip | pkg/sstable/block.go:22-103 | decoding an encoded block gives the entries back if and only if every key is shorter than 2^16 bytes |
| BlockIndex.Decode | pkg/sstable/sparse_index.go:97-133 | the offset-driven loop on any bytes |
| BlockIndex.IndexRoundTrip | pkg/sstable/sparse_index.go:74-133 | decoding an encoded index gives the entries back |
| BlockIndex.SparseIndex.FindCandidateBlock | pkg/sstable/sparse_index.go:40-67 | in an index in order the last entry at or below the key, none if all lie above |
| Bloom.NoFalseNegatives | pkg/sstable/bloom.go:76-98 | every key ever added may be held |
| Bloom.HeldExactly | pkg/sstable/bloom.go:76-98 | a filter built from an empty bitmap may hold exactly the keys all of whose probes are probes of keys added |
| Bloom.BitsStaySet | pkg/sstable/bloom.go:76-82 | adding never clears a bit |
| Bloom.FilterRoundTrip | pkg/sstable/bloom.go:102-132 | decoding an encoded filter gives it back |
| Bloom.IndexDoesNotOverflow | pkg/sstable/bloom.go:77-80 | the probe positions fit 64 bits for up to 30 probes |
| Bloom.BloomFilter.MayContain | pkg/sstable/bloom.go:86-98 | answers exactly whether all probed bits are set |
| Builder.SSTableBuilder.Add | pkg/sstable/builder.go:82-108 | blocks are cut where the size is reached; index, filter and bounds follow the entries added |
| Builder.SSTableBuilder.Finish | pkg/sstable/builder.go:135-191 | the files of the entries added, once |
| TableFormat.OneBlockCanHold | pkg/sstable/sparse_index.go:40-67 | the block the index points at holds the key if any block does |
| TableFormat.RunFits | pkg/sstable/builder.go:110-191 | any run of fewer than 2^32 storable entries fits its files, for block sizes up to 2^30 |
| TableFormat.IndexAt | pkg/sstable/builder.go:110-132 | each index entry points at the bytes of its block, with its first key |
| TableFormat.MetadataDescribes | pkg/sstable/builder.go:171-178 | a table's metadata: number of entries, bytes of data, first and last key |
| Reader.SSTableReader.Get | pkg/sstable/reader.go:111-158 | exactly the entry the table was built with, or nothing, with the Bloom filter asked or bypassed; over any files whatever, no key of 2^16 bytes or more is found |
| Reader.BuildAndOpen | pkg/sstable/reader.go:30-80 | the files built from any non-empty run of storable entries that fits them, in any block size, open to a reader over that run |
| Reader.NewIterator | pkg/sstable/reader.go:173-192 | the iterator starts before the whole run |
| Reader.SSTableIterator.Entry | pkg/sstable/reader.go:226-280 | it stands on the first of the entries left, and is valid exactly while there is one |
| Reader.SSTableIterator.Next | pkg/sstable/reader.go:231-241 | moves on by one entry, across block boundaries |
| Reader.SSTableIterator.Seek | pkg/sstable/reader.go:244-272 | leaves exactly the entries at or above the target, below the first and above the last key included |
| Levels.FirstCoveringDecides | pkg/lsm/engine.go:421-452 | in a level of disjoint tables, stopping at the first table that covers the key is sound |
| Levels.BreakNeedsDisjointness | pkg/lsm/engine.go:449 | without disjointness it misses an entry |
| Levels.DiskFindIsDeepFind | pkg/lsm/engine.go:393-454 | the disk lookup is a search in the stack of runs, newest first |
| Picker.FindOverlapping | pkg/compactor/picker.go:112-151 | the target tables that touch the hull of the inputs |
| Picker.OverlappingExactly | pkg/compactor/picker.go:112-151 | a target table is taken if and only if its last key is at or above some input's first, and its first at or below some input's last |
| Picker.IsBottomLevel | pkg/compactor/picker.go:153-160 | true if and only if every deeper level is empty |
| Picker.BestLevel | pkg/compactor/picker.go:65-92 | the first of the levels with the highest score over 1, if there is one, a limit of zero making a score infinite |
| Picker.OverBest | pkg/compactor/picker.go:65-92 | a score that replaces the best so far is exceeded by none of the scores before it, with zero limits and empty levels among them |
| Picker.PickCompaction | pkg/compactor/picker.go:48-104 | a task exactly when level 0 has reached its trigger or some level is over its size; level 0 as a whole, or the first table of the fullest level, into the level below |
| PickerLimits.LimitsGrow | pkg/compactor/picker.go:106-110 | level 1 may hold the base size in mebibytes, each deeper level the multiplier times what the one above may |
| PickerLimits.TotalSizeOneMore | pkg/compactor/picker.go:74-79 | a level's size is that of its tables' data files |
| PickerLimits.OverIsGreater | pkg/compactor/picker.go:81-86 | comparing scores as fractions is comparing the quotients |
| PickerLimits.OneLevelPicked | pkg/compactor/picker.go:65-104 | with tables in one level l only and level 0 below its trigger, a task is picked if and only if they hold more than base * 2^20 * multiplier^(l-1) bytes, and it takes the first of them |
| PickerLimits.DefaultLimits | pkg/compactor/picker.go:65-110 | the same for the engine's configuration, from 10485760 bytes in level 1 on |
| PickerLimits.OnePicked | pkg/compactor/picker.go:48-104 | no two tasks fit the picker's contract |
| Compactor.Compactor.Compact | pkg/compactor/compactor.go:61-190 | nothing when nothing is due; otherwise one edit replaces the inputs by their merge, cut into tables with fresh identifiers |
| Compactor.MergeAndCut | pkg/compactor/compactor.go:120-163 | the loop's output is the merge, cut at the target size |
| CompactionOutput.OutputExactly | pkg/compactor/compactor.go:61-190 | an entry is written out if and only if it is its key's version in the first input that has the key, and no tombstone with nothing below the target level |
| CompactionOutput.OutputSizes | pkg/compactor/compactor.go:120-163 | the tables written, with blocks of 4096 bytes, reach the target size with their last entry and not before, but for the last table |
| Cuts.CutProperties | pkg/compactor/compactor.go:120-163 | each closed piece reaches the limit with its last entry and not before, and put together the pieces give back what was cut |
| Cuts.SumSizeOneMore | pkg/compactor/compactor.go:120-163 | an entry counts with its key, its value and 16 bytes |
| Cuts.PiecesOrdered | pkg/compactor/compactor.go:120-163 | pieces of an ascending run are ascending, and each lies below the next |
| Compaction.EditedLists | pkg/compactor/compactor.go:165-178 | after the edit a level lists exactly what it listed and is not deleted, and the target level the new tables as well |
| CompactionView.CompactionKeepsViewExactly | pkg/compactor/compactor.go:61-190 | after a compaction out of any level, with inputs in either order, the levels are well-formed, and every disk lookup is as before if and only if: out of level 0, each key's first input version shows the same as its newest; out of level 6, the table taken shows nothing that no higher level hides |
| CompactionView.OldestFirstKeepsExactly | pkg/compactor/compactor.go:73-74 | with oldest-first inputs the answer for a key is kept if and only if its oldest and newest level-0 versions show the same |
| CompactionView.OldestFirstBringsBackOldValue | pkg/compactor/compactor.go:73-74 | a compaction of two level-0 tables after which a lookup goes back to the old value |
| CompactionView.Level6KeepsExactly | pkg/compactor/picker.go:69-104 | a task out of level 6 keeps the answer for a key if and only if the table taken shows nothing for it or a higher level hides it |
| CompactionView.Level6TaskPicked | pkg/compactor/picker.go:48-104 | with one table, in level 6 and over the limit of any configuration, the task out of level 6 is the one and only that is picked |
| CompactionView.Level6LosesItsOutput | pkg/compactor/picker.go:69-104 | with a base size of 0 such a task is picked for a small table, and after that compaction a lookup finds nothing |
| Compaction.SameVisible | pkg/compactor/picker.go:153-160 | dropping a merged tombstone at the bottom level shows nothing that was hidden |
| Compaction.RestMissesHull | pkg/compactor/picker.go:112-151 | a target table left out of the task shares no key with the inputs from above |
| CompactionLevels.LevelsOkAfter | pkg/compactor/picker.go:112-151 | after any compaction levels 1 and up are disjoint again, every listed table exists, no table is listed twice |
| CompactionEnds.TaskLowersWeight | pkg/compactor/picker.go:48-104 | every task with an input lowers the sum over entries of the rows still below them, and a level-0 task empties level 0 |
| CompactionEnds.CompactionEnds | pkg/lsm/engine.go:686-709 | with a trigger of at least 1 no chain of picked compactions without a flush in between is longer than that sum |
| CompactionEnds.DrainEndsExactly | pkg/lsm/engine.go:686-709 | from any well-formed levels the lengths of those chains are bounded if and only if the trigger is at least 1; below 1 there is one of every length, and no state meets the exit test |
| Search.SearchEngine.Ingest | pkg/search/engine.go:29-71 | nothing when the engine is closed; otherwise the document of the record's identifier is the record, and whatever records the index held, it holds them and this one: of all its six kinds of keys exactly theirs can be read; the invariant is kept for records that can be stored |
| Search.SearchEngine.IngestBatch | pkg/search/engine.go:74-84 | the same for records one after the other |
| Search.SearchEngine.GetByID | pkg/search/engine.go:86-94 | the document of the last record ingested with the identifier, or not found |
| SearchContents.KeysSpelled | pkg/search/engine.go:38-68 | the keys of a record are its document key, first, and its marks by time, level, service, token and field |
| SearchContents.IngestKeepsIndex | pkg/search/engine.go:29-71 | one more record's puts, whatever was stored: documents of other identifiers stay, every other key can be read if and only if it is a mark of a record |
| SearchContents.StoredDocument | pkg/search/engine.go:38-43 | the document of an identifier is that of the last record with it |
| SearchContents.StoredMark | pkg/search/engine.go:45-68 | another key can be read if and only if it is a mark of some record |
| SearchContents.MarksByPrefix | pkg/search/engine.go:45-68 | under each prefix the marks come from that field of the record alone |
| Search.PrefixesSpelled | pkg/search/engine.go:38-68 | the prefixes, as text |
| Search.IngestIndexes | pkg/search/engine.go:57-62 | ingesting a record makes exactly its tokens readable in the index, whatever was indexed before |
| Search.SearchEngine.ScanPrefixIDs | pkg/search/engine.go:277-306 | the last parts of the keys in the range, each once, in order |
| Search.ScanYieldsToken | pkg/search/engine.go:228-256 | the scan for a token yields an identifier if and only if a record with it has the token and a time in the interval |
| Search.SearchEngine.IntersectTerms | pkg/search/engine.go:228-275 | each identifier found under every token, once; nothing for no token |
| Search.IntersectionFiltersExactly | pkg/search/engine.go:228-275 | in any state, for the records indexed: on every query these are exactly the matching records' identifiers, if and only if for any two records of one identifier some record of it has the tokens of both and a time between theirs |
| Search.UniqueStandIn | pkg/search/engine.go:228-275 | that holds when identifiers are distinct |
| Search.TwiceIngestedMatchesBoth | pkg/search/engine.go:228-275 | in any state that has indexed two records of one identifier with a word each, as validated and tokenized, the query for both words finds the identifier and no record matches |
| Search.IngestTwiceFromNothing | pkg/search/engine.go:29-71 | opening an empty directory, ingesting the two and querying gives that answer |
| SearchIndex.TermKeyInRange | pkg/search/engine.go:233-235 | a term key lies between the scan's bounds if and only if it has the token and a time in the interval |
| SearchIndex.TermsOfRecord | pkg/search/engine.go:29-71 | no other key of a record looks like a term key |
| SearchIndex.SplitTermKey | pkg/search/engine.go:294-301 | a term key splits into four parts, the identifier last |
| Decimal.PaddedOrder | pkg/search/engine.go:57-62 | numbers that fit the padding are ordered as their padded forms, whatever follows |

## Left out

- Safety.CrashLosesNothing: for crashes while no log is leaky or an orphan and the logs' names are in the order of their identifiers, with no part written of a frame of 2^32 bytes or more, nor the whole frame of a key of 2^16 or more; what the others can cost is `CrashGaps` and `Wal.ReplayFramesOfAny`.
- MachineRecovery.CrashKeeps: the same crashes; nothing is appended by the crashing write itself behind a kept torn frame.
- Safety.ReachableDisk: while a log is leaky or an orphan the disk of the running engine need not hold the map, as `CrashGaps.KeptTornLosesAWrite` and `CrashGaps.OrphanBringsBackOldValue` show.
- Safety.ReachableRefinesMap: the tables written are of memtables whose entries are storable, compactions are harmless ones, rotations over an immutable memtable those that are safe. The others have their exact conditions in `Block.BlockRoundTrip`, `CompactionView.CompactionKeepsViewExactly` and `FlushGuard.FlushInAnySchedule`.
- Linearizability.GetIsLinearizable: the steps in between are those of the machine, so with harmless compactions and safe rotations only; a read that the process does not survive has no result.
- FlushGuard.FlushInAnySchedule: when the flush in progress has yet to write a memtable that no table gives back, only the sufficient half.
- CrashGaps.OrphanExactly: for the state after the flush that follows, not for later ones.
- CrashGaps.SwappedExactly: for two logs, of an engine between jobs.
- CrashGaps.KeptTornExactly: for one write behind the torn frame and an engine with one log.
- Engines.Engine.Put: the wait for the flush worker is one turn of that worker; when it flushes a memtable with an entry that is not storable, only the effect is stated, not the invariant.
- Engines.Engine.Delete: the same.
- Engines.Engine.Write: the same.
- Engines.Engine.Flush: run alone; other goroutines in its gap are `FlushGuard.FlushInAnySchedule`.
- FlushGuard.FlushKeepsExactly: for a Flush that nothing runs beside, of memtables whose entries are storable.
- FlushGuard.GuardedFlushKeeps: the same.
- Engines.Engine.Scan: run with nothing beside it; a scan that overlaps a compaction may have a reader closed under it.
- Opener.Open: readers are opened for all listed tables at once, as a map from identifiers to tables; a missing table file, an error in the code, is excluded by the invariant.
- pkg/core/manifest.go is not part of this model; the manifest is what its callers rely on: identifiers never handed out twice, edits atomic and durable, lists in insertion order.
- Merger.MergedIterator.constructor: drives snapshot cursors over runs; the SSTable iterator is proved to meet the same contract for Next and Seek, but the two are not put behind one interface.
- Flusher.WriteTable: a table in the engine is the run it was built from, and builder and reader are not called; that its files, built and opened, read as that run is `TableFiles.ReadListed`.
- Engines.Engine.FlushMemTableDirect: the same.
- Engines.Engine.SearchTables: a table's lookup is the lookup in its run, for the same reason.
- Engines.Engine.Get: the same; its two phases run one after the other, and what may happen in between is `Linearizability.GetIsLinearizable`.
- Compactor.Compactor.Compact: output tables are runs, for the same reason.
- Reader.BuildAndOpen: lengths must fit their fields, as `TableFormat.RunFits` shows they do for storable entries; what opening does otherwise is not said.
- Search.SearchEngine.IntersectTerms: of tokenizing only what the index relies on (distinct, not empty, no ':'); a result's order is arbitrary, as a Go map's.
- Search.SearchEngine.GetByID: up to the parsing of the document as JSON.
- Clients.Session: calls come one after the other, with keys of 1 to 2^16 - 1 bytes and values below 2^31, as a table can give back.
- Clients.PutThenGet: the same calls with nothing beside them; for a memtable waiting for its flush that a table can give back.
- Clients.DeleteThenGet: the same.
- Reopening.CrashAndReopen: for careful runs and names in order; the rest is `CrashGaps`.
- Progress.JobFinishes: of a flush that has only just started, for a memtable of storable entries.
- JobEffects.FlushedToTables: for a Flush that runs alone, of storable entries, but for the failing case.
- Formats.LogNameSpelled: identifiers from 10^6 on show more digits, as `LogNames.NameOrder` says.
- Search.SearchEngine.Ingest: runs with nothing beside it; errors of all puts but the first are ignored by the code, and do not occur here.
- Bloom.HeldExactly: which keys share probes is a matter of the hash, of which no more is stated than `HashChecks` does.
- Bloom sizing by logarithms and the false-positive rate: the size and the number of probes are the constructor's argument, multiples of 8 from 64 on and 1 to 30.
- Picker.BestLevel: scores are exact fractions, the code's are rounded.
- Table files of a compaction that crashes before its manifest edit: never listed, so never read.
- Fsync timing, SyncBatch and SyncNone, the periodic syncer; a write is durable when it returns.
- Failing reads, writes and opens, except in the formats, where any bytes may be met.
- Locks, goroutines and their liveness; steps are atomic where a lock makes them so.
- The difference between a nil and an empty value; the immutability flag of a memtable, which nothing reads.
- The tombstone branch in the compaction loop, which the merger has already made unreachable, and all statistics.
- Closing the engine and its iterators; ordering, filtering, paging and aggregation of search hits; levels, services and fields as query terms; JSON and validation of records.
- HTTP server, command line, benchmarks.
