# eLSM: a verified model of the storage engine

eLSM runs a fork of LevelDB 1.20 inside an SGX enclave and adds a Merkle tree to every table file it flushes. This project
models the engine's hard core in Dafny and proves properties of the model.

- **The LSM state machine.** Writes, memtable switches, flushes, compactions, trivial moves, version installs, file garbage
  collection and unlocked reads are steps over one state. A step ends wherever the code releases the database mutex,
  including the window of the manifest write inside `LogAndApply`. The specification is the history of all writes.
- **Search structures.** The skip list with unlocked readers, blocks, tables, the merging and two-level iterators and the
  database iterator are each a cursor over one sorted sequence. The cache shard and its hash table are a map.
- **Codecs.** The fragmenting log, manifest edits and their replay, prefix-compressed blocks, write batches and varints.
- **The Merkle array** filled at flush, the proofs read out of it and its root.

Code that updates fields in place is a class; code that loops is a method with its invariants, proved equal to a function or
to the property it promises; the theorems are lemmas about those functions and about the runs of the state machines.

User keys are real numbers in the modules that only compare them. `Bytes.RankOrder` and `InternalKeys.LessIsBefore` give the
order-preserving map from byte strings; `InternalKeys.SeekBlock` and `TableBytes.InternalGet` carry a search on real keys
over to encoded blocks and whole tables.

## Layout

| files | part |
|---|---|
| Keys, Levels, Versions, Picking, Compactions | entries, sorted tables, levels and their search, choice of inputs, the compaction loop |
| Lsm, LsmSteps, Engine, Background | the state machine, its invariant and theorems, the class that takes its steps, the loops it runs |
| Reads | a read spread over many moments |
| Snapshots | compactions and moves while a snapshot is live |
| WriteQueue, WriteBatch | group commit and the batch format |
| SkipList | the memtable index, its insertions and concurrent searches |
| Merger, TwoLevel, DbIter, Iterators | iterators, and their sources in the database |
| Bytes, Coding, InternalKeys, Separators | byte order, integers, internal keys, shortened separators |
| BlockFormat, BlockBuilder, BlockIter | blocks |
| Table, TableFile, TableBytes, FilterBlock, Bloom | table files, their lookup from bytes, and their filters |
| Log, LogReader, LogPrefix | the log file |
| EditCodec, Manifest, Replay, Journal | manifest edits, recovery, replay against installation |
| Merkle | the hash tree of a flushed table |
| HandleTable, LruCache | the block cache |

## Findings

Five promises fail on some inputs. Each has a lemma with a concrete input and, for all inputs, the exact condition.

- **A corrupt block can be read past its end** (Enclave/leveldb/table/block.cpp:72). `DecodeEntry` compares the bytes left with a
  32-bit sum that can wrap. Input: `BlockFormat.WrappedEntryPasses`. Condition: `BlockFormat.CheckedEntryFits`.
- **A trivial move can make a read go back in time** (Enclave/leveldb/db/db_impl.cpp:734-751). A live snapshot can split one user key
  over two files of a level, and the move takes only the newer one. Input: `Snapshots.MoveGoesBack`. Condition:
  `Snapshots.MoveKeepsReadsIff`, and `Snapshots.MoveKeepsAnswersIff` for the value the reader is given.
- **So can an ordinary compaction** (Enclave/leveldb/db/version_set.cpp:1353-1419). Input: `Snapshots.CompactionGoesBack`. Condition:
  `Snapshots.CompactionKeepsReadsIff`, and `Snapshots.CompactionKeepsAnswersIff` for the value the reader is given.
- **A compaction can undo a deletion** (Enclave/leveldb/db/version_set.cpp:1492-1511). The tombstone is dropped while an older value of
  its key stays in the output level, because `IsBaseLevelForKey` looks only at deeper levels. Input:
  `Snapshots.TombstoneComesUndone`. Condition: again `Snapshots.CompactionKeepsReadsIff`.
- **Replaying the manifest can differ from installing its edits** (Enclave/leveldb/db/version_set.cpp:671-714). It does when a file
  number comes back to a level with another file. Input: `Replay.ComingBackDiffers`. Condition:
  `Replay.ReplayIsInstallationIff`. `Journal.RunsAreFresh` shows that runs without snapshots never write such a manifest.

## Model

| member | source | states |
|---|---|---|
| `LsmSteps.EveryReadIsRight` | Enclave/leveldb/db/db_impl.cpp:1143-1188 | In every run, with any interleaving of writes, switches, flushes, compactions, moves, installs and file deletions, a read that is still in flight returns the value of the last Put of its key at its snapshot, on the first 112 bytes, and nothing if that write was a Delete or there was none |
| `LsmSteps.NoFileDeletedInUse` | Enclave/leveldb/db/db_impl.cpp:234-288 | In every run, a file of the current version, of the version a read holds or of a running compaction's version is on disk with its contents, even during the window of the manifest write |
| `LsmSteps.FlushMissesCompaction` | Enclave/leveldb/db/version_set.cpp:508-534 | A flush that lands at or below a running compaction's output level shares no user key with the hull of the compaction's inputs, so it meets no later output and no dropped tombstone |
| `LsmSteps.KeepsInv` | Enclave/leveldb/db/db_impl.cpp:503-1075 | Each of the engine's steps keeps the invariant: sorted tables, per user key newer entries above older ones from memtable to level 6, disjoint sorted levels, complete history, live files on disk |
| `LsmSteps.RunKeepsInv` | Enclave/leveldb/db/db_impl.cpp:503-1075 | Every run from a state with the invariant ends in one, so no interleaving leaves the layering |
| `LsmSteps.FreshInv` | Enclave/leveldb/db/version_set.cpp:784-803 | The empty database has the invariant, so every reachable state does |
| `LsmSteps.FlushMayJoin` | Enclave/leveldb/db/version_set.cpp:508-534 | The level picked for a flushed memtable holds no file that meets it, and neither does any shallower level, so its entries are newer than all it may be searched before |
| `LsmSteps.JoinVersionOk` | Enclave/leveldb/db/version_set.cpp:717-778 | Adding a file where it may join keeps levels sorted, disjoint and layered by age |
| `LsmSteps.PickedCompactionOk` | Enclave/leveldb/db/version_set.cpp:1299-1351 | What an automatic compaction picks, from any level and any file, satisfies the compaction part of the invariant from its first moment on |
| `LsmSteps.LastWriteSurvives` | Enclave/leveldb/db/db_impl.cpp:973-1006 | The compaction loop never drops the last write of a key, except a tombstone with nothing deeper |
| `LsmSteps.CompactedComplete` | Enclave/leveldb/db/db_impl.cpp:883-902 | Replacing the inputs by the outputs loses the last write of no key: it is still held above or in the new version, or it was a deletion and nothing of its key is left |
| `LsmSteps.CompactedVersionOk` | Enclave/leveldb/db/db_impl.cpp:883-902 | Installing the outputs, after any flushes that came in between, gives sorted, disjoint levels with newer entries above older ones |
| `LsmSteps.MovedVersionOk` | Enclave/leveldb/db/db_impl.cpp:734-751 | A trivial move keeps all of the layering and is the compaction whose output is its own input |
| `Lsm.NewestIsRight` | Enclave/leveldb/db/db_impl.cpp:1143-1188 | If a set of entries comes from the history and still holds each last write, its newest visible entry is the right answer for that history |
| `Lsm.LookupNewest` | Enclave/leveldb/db/db_impl.cpp:1165-1179 | Memtable, then immutable memtable, then levels, stopping at the first hit, finds the newest entry of the key in the whole database |
| `Keys.FindIsNewest` | Enclave/leveldb/db/memtable.cpp:108-143 | One seek to (key, sequence) in a sorted table and a comparison of user keys finds exactly the newest entry visible at that sequence, or shows there is none |
| `Keys.InsertUnseen` | Enclave/leveldb/db/memtable.cpp:82-106 | An insertion into a memtable is invisible to every read at an older sequence, so readers need no lock |
| `Engine.DBImpl.Write` | Enclave/leveldb/db/db_impl.cpp:1244-1280 | The whole group joins the history and the state stays reachable; the sequence advances by the number of operations |
| `Engine.DBImpl.InsertNext` | Enclave/leveldb/db/write_batch.cpp:112-126 | Inserting one operation of the group is the state machine's step: the new memtable has it at the next sequence and readers are unaffected |
| `Engine.DBImpl.SwitchMemtable` | Enclave/leveldb/db/db_impl.cpp:1388-1410 | The memtable becomes the immutable one and an empty table takes its place, as the machine's step |
| `Engine.DBImpl.BuildTable` | Enclave/leveldb/db/builder.cpp:113-144 | The flushed file keeps the memtable's keys in order, each value cut or padded to 112 bytes and followed by 240 proof bytes, as an enabled step of the machine |
| `Engine.DBImpl.PrepareMemtable` | Enclave/leveldb/db/db_impl.cpp:503-550 | The flush edit is built on the current version at the picked level and the file leaves the pending set before the version is installed |
| `Engine.DBImpl.InstallMemtable` | Enclave/leveldb/db/db_impl.cpp:552-582 | The prepared version becomes current and the immutable memtable is dropped, keeping the invariant |
| `Engine.DBImpl.PickCompaction` | Enclave/leveldb/db/version_set.cpp:1299-1351 | Choosing a file and its inputs by the loops of the source starts the machine's compaction with exactly those inputs and survivors |
| `Engine.DBImpl.OpenCompactionOutputFile` | Enclave/leveldb/db/db_impl.cpp:805-828 | An output takes a new file number and is pending from that moment |
| `Engine.DBImpl.FinishCompactionOutputFile` | Enclave/leveldb/db/db_impl.cpp:830-880 | The next survivors are written as a file under the open number |
| `Engine.DBImpl.InstallCompactionResults` | Enclave/leveldb/db/db_impl.cpp:883-902 | The version with inputs deleted and outputs added is prepared on the current version, not on the version the compaction started from |
| `Engine.DBImpl.CleanupCompaction` | Enclave/leveldb/db/db_impl.cpp:788-803 | The prepared version is installed and the outputs stop being pending only then |
| `Engine.DBImpl.MoveFile` | Enclave/leveldb/db/db_impl.cpp:734-751 | The trivial move prepares the version with the file one level down |
| `Engine.DBImpl.FinishMove` | Enclave/leveldb/db/version_set.cpp:895-899 | The moved version is installed after the manifest write |
| `Engine.DBImpl.BeginGet` | Enclave/leveldb/db/db_impl.cpp:1147-1160 | A read takes its sequence, tables and version in one critical section |
| `Engine.DBImpl.EndGet` | Enclave/leveldb/db/db_impl.cpp:1165-1188 | Whatever ran since the read began, the bytes it returns are right for its snapshot |
| `Reads.EveryReadIsRightOverTime` | Enclave/leveldb/db/db_impl.cpp:1165-1179 | A Get that looks into the memtable, the immutable memtable and the files of each level at moments of its own, with any steps of the engine in between, loads only files that are on disk and returns what the writes committed before it began determine |
| `Iterators.NewIteratorIsRight` | Enclave/leveldb/db/db_impl.cpp:1101-1129 | In every reachable state the memtables, the level-0 files and the deeper levels have a merge without repetition, and the database iterator over it shows of every user key exactly the value the history determines |
| `Iterators.LevelSeparated` | Enclave/leveldb/db/version_set.cpp:164-233 | The largest keys of a sorted level separate its files even when neighbours share a user key, so the two-level iterator walks the concatenation of the files |
| `Background.Get` | Enclave/leveldb/db/version_set.cpp:338-435 | The search by levels returns the newest entry of the key in the whole version at or below the sequence |
| `Background.SortNewestFirst` | Enclave/leveldb/db/version_set.cpp:363-378 | The level-0 candidates that cover the key, in descending order of file number |
| `Versions.SearchFromNewest` | Enclave/leveldb/db/version_set.cpp:338-435 | On every readable version, stopping at the first level with a hit gives the newest entry of all deeper ones |
| `Versions.SearchLevel0Newest` | Enclave/leveldb/db/version_set.cpp:361-378 | Searching overlapping level-0 files newest first finds the newest entry of the level |
| `Versions.SearchOneNewest` | Enclave/leveldb/db/version_set.cpp:379-396 | In a sorted level the single file found by binary search holds the level's newest visible entry, even when neighbours share a user key |
| `Picking.FindFileIndex` | Enclave/leveldb/db/version_set.cpp:87-106 | Binary search returns the first file whose largest key is not before the target |
| `Picking.SomeFileOverlapsRange` | Enclave/leveldb/db/version_set.cpp:122-157 | True exactly when some file meets the range, for open bounds and for both the linear and the binary-search branch |
| `Picking.GetOverlappingInputs` | Enclave/leveldb/db/version_set.cpp:537-578 | Terminates despite its restarts and returns the files meeting the range, at level 0 those meeting the closed range |
| `Picking.Collect` | Enclave/leveldb/db/version_set.cpp:537-578 | The restarting loop never leaves any closed range around the request and at level 0 ends on a closed one |
| `Picking.ClosureLeast` | Enclave/leveldb/db/version_set.cpp:553-577 | The closure at level 0 is the least range that contains the request and is closed under overlap |
| `Picking.PickLevelForMemTableOutput` | Enclave/leveldb/db/version_set.cpp:508-534 | The loop over levels returns the deepest allowed level reached with nothing overlapping on the way |
| `Picking.PickInputsGood` | Enclave/leveldb/db/version_set.cpp:1299-1419 | The picked inputs cover a gap-free interval: every file of the two levels that meets the hull of the inputs is an input, and at level 0 nothing older stays behind |
| `Background.SetupOtherInputs` | Enclave/leveldb/db/version_set.cpp:1353-1419 | The imperative choice with its optional growth equals the specification that PickInputsGood is about |
| `Background.GetRange` | Enclave/leveldb/db/version_set.cpp:1232-1252 | The loop's two keys bound exactly the hull of the files |
| `Background.DoCompactionWork` | Enclave/leveldb/db/db_impl.cpp:904-1075 | For every place the outputs may be cut, their concatenation is the survivors of the sorted input and no output is empty |
| `Background.Obsolete` | Enclave/leveldb/db/db_impl.cpp:973-1006 | The drop decision with its remembered sequence and moving cursors equals the specified one |
| `Background.LevelCursors.IsBaseLevelForKey` | Enclave/leveldb/db/version_set.cpp:1492-1511 | With cursors that only move forward, the answer for keys asked in order is whether any deeper file covers the key |
| `Compactions.SurvivorsExact` | Enclave/leveldb/db/db_impl.cpp:973-1006 | One pass with local memory keeps, in order, exactly the entries that are the newest at or below the snapshot or above it, less base-level tombstones |
| `Compactions.MergeAllSorted` | Enclave/leveldb/db/version_set.cpp:1266-1297 | Merging the input files gives a sorted sequence of exactly their entries |
| `Compactions.OneSurvivorPerUser` | Enclave/leveldb/db/db_impl.cpp:917-921 | Without live snapshots at most one entry per user key survives |
| `Compactions.CutsDisjoint` | Enclave/leveldb/db/db_impl.cpp:1017-1039 | Then any cut of the survivors into files gives files with disjoint user keys |
| `Snapshots.DroppingKeepsReads` | Enclave/leveldb/db/db_impl.cpp:917-1006 | For every readable version and picked inputs, every key and every sequence at or above the smallest snapshot, the survivors with the deeper levels give the same result as the inputs with them |
| `Snapshots.CompactionKeepsReads` | Enclave/leveldb/db/db_impl.cpp:904-1075 | With disjoint levels, a search of the version after an automatic compaction gives what the search gave before, for all sequences at or above the snapshot, although the outputs may share boundary user keys |
| `Snapshots.CompactionKeepsReadsIff` | Enclave/leveldb/db/version_set.cpp:1353-1419 | For levels that may share boundary keys, a compaction keeps all such reads if and only if no file left in the input level holds an older entry of a compacted key and no dropped tombstone covers an entry left in the output level |
| `Snapshots.CompactionKeepsAnswersIff` | Enclave/leveldb/db/version_set.cpp:1353-1419 | The same for what readers are told: all answers at or above the snapshot stay the same if and only if no exposed version, in the input level or under a dropped tombstone, has another answer |
| `Snapshots.CompactionGoesBack` | Enclave/leveldb/db/version_set.cpp:1353-1419 | Finding: for every limit on growing the inputs, a version and a compaction after which the read at sequence 5 changes from the write at 5 to the write at 3 |
| `Snapshots.TombstoneComesUndone` | Enclave/leveldb/db/version_set.cpp:1492-1511 | Finding: a version and a compaction after which a deleted key is found again |
| `Snapshots.MoveKeepsReadsIff` | Enclave/leveldb/db/version_set.cpp:1474-1482 | A trivial move keeps every read if and only if the next file of its level does not start with the moved file's last user key |
| `Snapshots.MoveKeepsAnswersIff` | Enclave/leveldb/db/version_set.cpp:1474-1482 | A trivial move keeps every answer if and only if the next file of its level does not start with another answer for the moved file's last user key than some version in the moved file |
| `Snapshots.MoveGoesBack` | Enclave/leveldb/db/db_impl.cpp:734-751 | Finding: a version whose trivial move changes the read at sequence 5 to the write at 3 |
| `Snapshots.LiveSnapshotSplitsKey` | Enclave/leveldb/db/db_impl.cpp:1017-1039 | The compaction loop itself produces two output files that share a user key when a snapshot is live |
| `WriteQueue.AllOrNothing` | Enclave/leveldb/db/db_impl.cpp:1228-1299 | In every interleaving, the last sequence covers all operations of a finished writer's batch and none of a waiting one's |
| `WriteQueue.InsertedInOrder` | Enclave/leveldb/db/db_impl.cpp:1228-1299 | In every interleaving each finished batch stands in the memtable once, in queue order, under consecutive sequence numbers |
| `WriteQueue.LedOrDone` | Enclave/leveldb/db/db_impl.cpp:1282-1291 | In every interleaving each finished writer either led its group or was marked done by a leader, exactly once and never both; a waiting writer was neither |
| `WriteQueue.PopsGroup` | Enclave/leveldb/db/db_impl.cpp:1282-1291 | Popping the front until the group's last writer removes exactly the group and marks all but the leader |
| `WriteQueue.PopLoop` | Enclave/leveldb/db/db_impl.cpp:1282-1291 | The loop ends and leaves exactly the queue behind the group |
| `WriteQueue.BuildBatchGroup` | Enclave/leveldb/db/db_impl.cpp:1301-1348 | The group is the longest run of writers that may join, and its batch is their operations in queue order |
| `WriteBatch.IterateInverts` | Enclave/leveldb/db/write_batch.cpp:42-80 | Reading a batch's representation gives back its operations and no error |
| `WriteBatch.Iterate` | Enclave/leveldb/db/write_batch.cpp:42-80 | On any bytes the loop hands over the operations before the first malformed one and reports whether the rest was well formed and counted right |
| `WriteBatch.InsertInto` | Enclave/leveldb/db/write_batch.cpp:128-134 | The memtable gains the batch's operations in order under consecutive sequence numbers, and on a malformed batch those before the fault |
| `WriteBatch.WriteBatch.constructor` | Enclave/leveldb/db/write_batch.cpp:29-40 | A new batch is the twelve zero bytes of an empty one |
| `WriteBatch.WriteBatch.PutOp` | Enclave/leveldb/db/write_batch.cpp:98-103 | The bytes become those of the batch with the put added last |
| `WriteBatch.WriteBatch.DeleteOp` | Enclave/leveldb/db/write_batch.cpp:105-109 | The bytes become those of the batch with the deletion added last |
| `WriteBatch.WriteBatch.Append` | Enclave/leveldb/db/write_batch.cpp:141-145 | Joining byte strings and adding counts gives the batch of both lists of operations |
| `SkipList.EverySearchIsRight` | Enclave/leveldb/db/skiplist.h:265-371 | In every interleaving of one writer's single pointer stores with any number of readers, a reader only meets links that are set, and when it stops it stands between the greatest smaller key and the least key at or after the target of the list at its last read |
| `SkipList.EveryWalkIsComplete` | Enclave/leveldb/db/skiplist.h:210-214 | In every interleaving of an iterator's Next with insertions, the next link is set whenever it is read, the keys met increase, and at the end the walk has met every key that was in the list when it began |
| `SkipList.StepGood` | Enclave/leveldb/db/skiplist.h:340-371 | Each single store keeps every level a sorted sublist of the level below and every reader on the list |
| `SkipList.RunGood` | Enclave/leveldb/db/skiplist.h:340-371 | So does every run |
| `SkipList.SkipList.Find` | Enclave/leveldb/db/skiplist.h:265-325 | One search gives the neighbours of the target and, per level, the predecessor an insertion needs |
| `SkipList.SkipList.Insert` | Enclave/leveldb/db/skiplist.h:340-371 | The key joins exactly the lowest levels up to its height and nothing else changes |
| `SkipList.SkipList.Contains` | Enclave/leveldb/db/skiplist.h:374-381 | True exactly for the inserted keys |
| `SkipList.SkipList.Prev` | Enclave/leveldb/db/skiplist.h:217-225 | The node before a key is its predecessor in the whole list |
| `SkipList.SkipList.SeekToLast` | Enclave/leveldb/db/skiplist.h:238-243 | The greatest key, or the head of an empty list |
| `DbIter.ShownIffFound` | Enclave/leveldb/db/db_iter.cpp:173-203 | The entries the iterator shows are exactly the values a point read at the snapshot finds |
| `DbIter.DBIter.Next` | Enclave/leveldb/db/db_iter.cpp:146-171 | From any direction, moves to the first shown entry after the current one |
| `DbIter.DBIter.Prev` | Enclave/leveldb/db/db_iter.cpp:205-230 | From any direction, moves to the last shown entry before the current one |
| `DbIter.DBIter.FindNextUserEntry` | Enclave/leveldb/db/db_iter.cpp:173-203 | Stops at the first entry at or after its position that is shown and not of the skipped key |
| `DbIter.DBIter.FindPrevUserEntry` | Enclave/leveldb/db/db_iter.cpp:232-272 | Stops with the last shown entry at or before its position saved |
| `DbIter.DBIter.Seek` | Enclave/leveldb/db/db_iter.cpp:274-286 | Lands on the first shown entry whose user key is at or after the target |
| `DbIter.DBIter.SeekToFirst` | Enclave/leveldb/db/db_iter.cpp:288-297 | Lands on the first shown entry |
| `DbIter.DBIter.SeekToLast` | Enclave/leveldb/db/db_iter.cpp:299-304 | Lands on the last shown entry |
| `Merger.MergeWeaves` | Enclave/leveldb/table/merger.cpp:155-183 | The children's entries are placed without gap or overlap in the merged sequence, in each child's order |
| `Merger.MergingIterator.FindSmallest` | Enclave/leveldb/table/merger.cpp:155-168 | When every child stands at its first entry from a place on, the smallest of them is that place |
| `Merger.MergingIterator.FindLargest` | Enclave/leveldb/table/merger.cpp:170-183 | When every child stands at its last entry up to a place, the largest of them is that place |
| `Merger.MergingIterator.Next` | Enclave/leveldb/table/merger.cpp:59-83 | From either direction, moves one place on in the merged sequence |
| `Merger.MergingIterator.Prev` | Enclave/leveldb/table/merger.cpp:85-112 | From either direction, moves one place back in the merged sequence |
| `Merger.MergingIterator.Seek` | Enclave/leveldb/table/merger.cpp:51-57 | Lands where a seek on the merged sequence lands |
| `Merger.MergingIterator.SeekToFirst` | Enclave/leveldb/table/merger.cpp:35-41 | Lands on the first merged entry |
| `Merger.MergingIterator.SeekToLast` | Enclave/leveldb/table/merger.cpp:43-49 | Lands on the last merged entry |
| `TwoLevel.SeekLands` | Enclave/leveldb/table/two_level_iterator.cpp:91-96 | A seek in the block found through the index is the seek in the concatenation of all blocks |
| `TwoLevel.TwoLevelIterator.Seek` | Enclave/leveldb/table/two_level_iterator.cpp:91-96 | Lands where a seek on the concatenation lands, past empty blocks |
| `TwoLevel.TwoLevelIterator.SeekToFirst` | Enclave/leveldb/table/two_level_iterator.cpp:98-103 | Lands on the first entry of the concatenation |
| `TwoLevel.TwoLevelIterator.SeekToLast` | Enclave/leveldb/table/two_level_iterator.cpp:105-110 | Lands on the last entry of the concatenation |
| `TwoLevel.TwoLevelIterator.Next` | Enclave/leveldb/table/two_level_iterator.cpp:112-116 | Moves one place on in the concatenation |
| `TwoLevel.TwoLevelIterator.Prev` | Enclave/leveldb/table/two_level_iterator.cpp:118-122 | Moves one place back in the concatenation |
| `TwoLevel.TwoLevelIterator.InitDataBlock` | Enclave/leveldb/table/two_level_iterator.cpp:156-170 | The data iterator is over the block the index stands on, reloaded only when the handle changed |
| `TwoLevel.TwoLevelIterator.SkipEmptyDataBlocksForward` | Enclave/leveldb/table/two_level_iterator.cpp:125-136 | From the end of a block, lands on the next entry of the concatenation however many blocks are empty |
| `TwoLevel.TwoLevelIterator.SkipEmptyDataBlocksBackward` | Enclave/leveldb/table/two_level_iterator.cpp:138-149 | The same backwards |
| `LogPrefix.PrefixReads` | Enclave/leveldb/db/log_reader.cpp:60-281 | Reading any byte prefix of a log written by any sequence of AddRecord calls returns exactly the records that lie wholly inside it, in order, with nothing reported as corrupt |
| `LogPrefix.InsideIff` | Enclave/leveldb/db/log_writer.cpp:38-85 | The number of records inside a prefix: the first k are inside exactly when their bytes fit |
| `Log.Writer.AddRecord` | Enclave/leveldb/db/log_writer.cpp:38-85 | The destination becomes the log of the old records and the new one, for empty, block-sized and longer records |
| `Log.Writer.EmitPhysicalRecord` | Enclave/leveldb/db/log_writer.cpp:87-115 | Appends the fragment with its checksum, length and type |
| `Log.Writer.Reopen` | Enclave/leveldb/db/log_writer.cpp:29-32 | A writer on the bytes of an earlier log continues that log |
| `Log.UnmaskInvertsMask` | Enclave/leveldb/util/crc32c.h:31-40 | Unmasking a masked checksum gives it back, for every 32-bit word |
| `Log.ExtendConcat` | Enclave/leveldb/util/crc32c.h:14-17 | Extending a checksum piece by piece is the checksum of the concatenation |
| `LogReader.Reader.ReadPhysicalRecord` | Enclave/leveldb/db/log_reader.cpp:199-281 | On any bytes, the buffered reader returns what a scan of the whole file at its position returns, and reports what it drops |
| `LogReader.Reader.ReadRecord` | Enclave/leveldb/db/log_reader.cpp:60-182 | On any bytes, the record returned, the position reached and the reports equal the assembly of the scanned fragments |
| `LogReader.ReadFile` | Enclave/leveldb/db/log_reader.cpp:60-182 | Calling it to the end gives the contents that PrefixReads is about |
| `BlockFormat.CheckedEntryFits` | Enclave/leveldb/table/block.cpp:55-76 | An accepted entry lies inside the block if and only if its two lengths add up to less than 2^32 |
| `BlockFormat.WrappedEntryPasses` | Enclave/leveldb/table/block.cpp:72 | Finding: seven bytes that the check accepts as an entry of more than four gigabytes |
| `BlockFormat.DecodeEncoded` | Enclave/leveldb/table/block.cpp:55-76 | Decoding what the builder wrote gives back the three lengths, the key's suffix and the value |
| `BlockFormat.OpenBlock` | Enclave/leveldb/table/block.cpp:19-38 | The trailer of a built block is found where the entries end, with its number of restarts |
| `BlockBuilder.BlockBuilder.Add` | Enclave/leveldb/table/block_builder.cpp:82-122 | The buffer lays out the earlier entries and the new one with a restart every interval entries |
| `BlockBuilder.BlockBuilder.Finish` | Enclave/leveldb/table/block_builder.cpp:72-80 | The bytes are a block of exactly the entries added |
| `BlockBuilder.BlockBuilder.Reset` | Enclave/leveldb/table/block_builder.cpp:57-64 | The builder is as new |
| `BlockBuilder.BlockBuilder.CommonPrefix` | Enclave/leveldb/table/block_builder.cpp:89-94 | The longest prefix shared with the last key |
| `BlockIter.ReadEntries` | Enclave/leveldb/table/block.cpp:141-257 | Reading a built block from the front returns exactly its entries, for every restart interval |
| `BlockIter.BlockIter.constructor` | Enclave/leveldb/table/block.cpp:260-270 | Accepts any block that opens, however corrupt its entries |
| `BlockIter.BlockIter.ParseEntry` | Enclave/leveldb/table/block.cpp:230-257 | Accepts an entry exactly when the source does; the value lies inside the block exactly when the two lengths do not wrap |
| `BlockIter.BlockIter.ParseNextKey` | Enclave/leveldb/table/block.cpp:230-257 | Moves forward on any block, and on a built one to the next entry |
| `BlockIter.BlockIter.Next` | Enclave/leveldb/table/block.cpp:141-144 | On a built block, moves one entry on |
| `BlockIter.BlockIter.Prev` | Enclave/leveldb/table/block.cpp:146-165 | On a built block, moves one entry back: restart search and rescan undo Next |
| `BlockIter.BlockIter.Seek` | Enclave/leveldb/table/block.cpp:167-207 | On a built block with increasing keys, lands on the first key not less than the target |
| `BlockIter.BlockIter.FindRestart` | Enclave/leveldb/table/block.cpp:170-193 | The binary search ends on a restart whose key is less than the target, or on the first |
| `BlockIter.BlockIter.SeekToFirst` | Enclave/leveldb/table/block.cpp:209-212 | Lands on the first entry |
| `BlockIter.BlockIter.SeekToLast` | Enclave/leveldb/table/block.cpp:214-219 | Lands on the last entry |
| `BlockIter.BlockIter.SeekToRestartPoint` | Enclave/leveldb/table/block.cpp:106-114 | Stands just before the entry of that restart |
| `TableFile.InternalGet` | Enclave/leveldb/table/table.cpp:231-260 | On a file made by TableBuilder, with or without a filter, the saver gets the newest entry of the key at or below the sequence exactly when there is one |
| `Table.OneBlockIsEnough` | Enclave/leveldb/table/table.cpp:231-260 | The one block the index routes to decides the lookup, whatever the separators |
| `Table.TableSeparated` | Enclave/leveldb/table/table_builder.cpp:93-122 | The index of a built file satisfies what the two-level iterator needs to seek |
| `Table.SeparatorCuts` | Enclave/leveldb/db/dbformat.cpp:68-85 | A shortened internal key is at or after the last key of its block and before the first of the next, also against every lookup key |
| `Table.SuccessorCuts` | Enclave/leveldb/db/dbformat.cpp:87-99 | The key closing the index is at or after the last key |
| `TableFile.TableBuilder.Add` | Enclave/leveldb/table/table_builder.cpp:93-122 | The entry joins the file under construction; index, blocks and filter stay in step with the entries |
| `TableFile.TableBuilder.Flush` | Enclave/leveldb/table/table_builder.cpp:124-138 | The open block is written and the filter moves to the new offset |
| `TableFile.TableBuilder.WriteBlock` | Enclave/leveldb/table/table_builder.cpp:140-194 | The block stands at the old offset and the offset grows by its size and trailer |
| `TableFile.TableBuilder.Finish` | Enclave/leveldb/table/table_builder.cpp:200-253 | The finished file is a table of exactly the entries added, with a filter that answers for each block |
| `InternalKeys.BytewiseProper` | Enclave/leveldb/util/comparator.cpp:29-65 | The bytewise comparator's shortened keys are proper separators, so the table results hold for it |
| `InternalKeys.SeparatorsStand` | Enclave/leveldb/db/dbformat.cpp:68-99 | The internal comparator's shortening of encoded keys is the shortening the table results use |
| `InternalKeys.SeekBlock` | Enclave/leveldb/table/block.cpp:167-207 | A block seek for an encoded internal key lands where the search on decoded entries lands |
| `InternalKeys.LessIsBefore` | Enclave/leveldb/db/dbformat.cpp:50-66 | Comparing encoded internal keys is: user key up, then sequence down, then type down; equal only if identical |
| `InternalKeys.ParseInverts` | Enclave/leveldb/db/dbformat.h:176-186 | Parsing an encoded internal key gives it back |
| `InternalKeys.EncodeInverts` | Enclave/leveldb/db/dbformat.h:176-186 | Encoding what was parsed gives the bytes back |
| `InternalKeys.SeekLands` | Enclave/leveldb/db/dbformat.cpp:50-66 | Searching encoded keys with the internal comparator agrees with searching entries |
| `Separators.SeparatorBetween` | Enclave/leveldb/util/comparator.cpp:29-51 | The result is not longer and lies from start up to limit; without start before limit nothing changes |
| `Separators.SuccessorAfter` | Enclave/leveldb/util/comparator.cpp:53-65 | The result is not longer and not before the key; it is the key itself exactly when all bytes are 255 |
| `Separators.FindShortestSeparator` | Enclave/leveldb/util/comparator.cpp:29-51 | The loop computes the separator that SeparatorBetween is about |
| `Separators.FindShortSuccessor` | Enclave/leveldb/util/comparator.cpp:53-65 | The loop computes the successor that SuccessorAfter is about |
| `Bytes.RankOrder` | Enclave/leveldb/util/comparator.cpp:25-27 | The bytewise order embeds in the reals: less to less and equal to equal, both ways |
| `FilterBlock.KeysMatch` | Enclave/leveldb/table/filter_block.cpp:22-109 | No false negatives end to end: every key added for a block matches at every offset of that block |
| `FilterBlock.FilterBlockBuilder.Finish` | Enclave/leveldb/table/filter_block.cpp:36-50 | At every offset the finished filter answers exactly as the key set of that offset's filter does |
| `FilterBlock.FilterBlockBuilder.StartBlock` | Enclave/leveldb/table/filter_block.cpp:22-28 | Closes the pending keys into one filter and fills up with empty ones to the offset's index |
| `FilterBlock.FilterBlockBuilder.GenerateFilter` | Enclave/leveldb/table/filter_block.cpp:52-76 | The pending keys become the next filter |
| `FilterBlock.FilterBlockBuilder.AddKey` | Enclave/leveldb/table/filter_block.cpp:30-34 | The key joins the pending ones |
| `FilterBlock.KeyMayMatch` | Enclave/leveldb/table/filter_block.cpp:95-109 | On any contents, corrupt ones included, the answer is the specified one and reading stays in bounds |
| `Bloom.CreateFilter` | Enclave/leveldb/util/bloom.cpp:35-61 | The filter lets through exactly the keys all of whose probes were set by some added key |
| `Bloom.MembersPass` | Enclave/leveldb/util/bloom.cpp:35-87 | Every added key passes |
| `Bloom.KeyMayMatch` | Enclave/leveldb/util/bloom.cpp:63-87 | On any bytes the loop decides whether all probes are set, with reserved and short encodings as in the source |
| `Coding.Varint32RoundTrip` | Enclave/leveldb/util/coding.cpp:47-141 | Reading a 32-bit varint before any rest gives the number and its length, at most five bytes |
| `Coding.Varint64RoundTrip` | Enclave/leveldb/util/coding.cpp:81-170 | The same for 64 bits and ten bytes |
| `Coding.EncodeVarint32` | Enclave/leveldb/util/coding.cpp:47-73 | The five branches produce the base-128 digits |
| `Coding.EncodeVarint64` | Enclave/leveldb/util/coding.cpp:81-90 | The loop produces the base-128 digits |
| `Coding.GetVarint32` | Enclave/leveldb/util/coding.cpp:112-141 | On any bytes the shifting loop reads the number, cut to 32 bits, or fails where the source fails |
| `Coding.GetVarint64` | Enclave/leveldb/util/coding.cpp:143-170 | The same for 64 bits |
| `Coding.SliceRoundTrip` | Enclave/leveldb/util/coding.cpp:172-192 | Reading a length-prefixed slice before any rest gives the slice |
| `Coding.NumberOfFixed` | Enclave/leveldb/util/coding.cpp:9-33 | Decoding a fixed-width number gives it back |
| `Coding.FixedOfNumber` | Enclave/leveldb/util/coding.h:58-82 | Encoding a decoded fixed-width number gives the bytes back |
| `Manifest.CrashRecovers` | Enclave/leveldb/db/version_set.cpp:914-1033 | For every byte prefix of the manifest, recovery yields the version installed by the last edit wholly inside it and that edit's counters, or fails when there is none |
| `Manifest.Recover` | Enclave/leveldb/db/version_set.cpp:914-1033 | On any file, corrupt or short ones included, the loop gives the specified recovery |
| `Manifest.VersionSet.LogAndApply` | Enclave/leveldb/db/version_set.cpp:829-912 | The descriptor gains the stamped edit's record and the current version becomes the one installed by all edits so far |
| `Manifest.BuilderApply` | Enclave/leveldb/db/version_set.cpp:671-714 | One edit changes each level's deletions and additions as specified, later entries winning |
| `Manifest.SaveVersion` | Enclave/leveldb/db/version_set.cpp:717-763 | Each level is the base merged with the additions, less the deletions |
| `Levels.SaveTo` | Enclave/leveldb/db/version_set.cpp:717-778 | The merge by upper bounds equals the specified merge |
| `Levels.SaveLevelExact` | Enclave/leveldb/db/version_set.cpp:717-778 | The saved level is in order and holds exactly the old and added files that are not deleted |
| `Levels.UpperBound` | Enclave/leveldb/db/version_set.cpp:728-740 | The first base file after the added one |
| `Replay.ReplayIsInstallationIff` | Enclave/leveldb/db/version_set.cpp:671-778 | Applying all edits to one builder gives the same files as installing them one by one if and only if every number that is added and not deleted at the end was not in the base, always came with the same smallest key, and came first with the file it came with last |
| `Replay.ReplayIsInstallation` | Enclave/leveldb/db/version_set.cpp:671-778 | In particular when no number comes back to a level it left |
| `Replay.ComingBackDiffers` | Enclave/leveldb/db/version_set.cpp:671-714 | Finding: a number that comes back with another file replays to both files |
| `Replay.InstalledFacts` | Enclave/leveldb/db/version_set.cpp:717-778 | Step-by-step installation keeps levels in order with distinct numbers, each file being its number's last mention |
| `Journal.ManifestReplays` | Enclave/leveldb/db/version_set.cpp:829-1033 | For every run of the engine, replaying the edits it wrote gives its current version |
| `Journal.RunsAreFresh` | Enclave/leveldb/db/version_set.cpp:829-912 | The edits of every run meet the condition that LogAndApply and CrashRecovers require |
| `EditCodec.EditRoundTrip` | Enclave/leveldb/db/version_edit.cpp:41-210 | Decoding an encoded edit gives the edit, for every edit whose fields fit and any order of its deletions |
| `EditCodec.DecodeFrom` | Enclave/leveldb/db/version_edit.cpp:109-210 | On any bytes the tag loop computes the specified decoding, errors included |
| `EditCodec.EncodeTo` | Enclave/leveldb/db/version_edit.cpp:41-86 | The appended bytes are the fields in the source's order |
| `Merkle.PathFolds` | Enclave/leveldb/db/builder.cpp:62-76 | For every height and leaf, folding the leaf with its path by parity gives the root slot |
| `Merkle.OnlyPathFolds` | Enclave/leveldb/db/builder.cpp:128-132 | With an injective hash, a node and proof fold to the root if and only if they are the tree's own |
| `Merkle.RootDetermines` | Enclave/leveldb/db/builder.cpp:144 | With an injective hash the root determines every slot of the array, all leaves included |
| `Merkle.FillLayers` | Enclave/leveldb/db/builder.cpp:62-76 | The nested loops make every inner slot the hash of its two children and leave the leaves |
| `Merkle.FillLeaves` | Enclave/leveldb/db/builder.cpp:48-60 | The first leaves are the records' codes |
| `Merkle.ExtractProof` | Enclave/leveldb/db/builder.cpp:124-132 | The sibling loop reads out the path |
| `Merkle.BuildTable` | Enclave/leveldb/db/builder.cpp:48-144 | Every stored value is the 112-byte window with a proof that folds its record's code to the stored root, deletions included |
| `HandleTable.HandleTable.Lookup` | Enclave/leveldb/util/cache.cpp:78-80 | Finds what the map holds |
| `HandleTable.HandleTable.Insert` | Enclave/leveldb/util/cache.cpp:82-96 | The map gains the entry and the replaced one is returned |
| `HandleTable.HandleTable.Remove` | Enclave/leveldb/util/cache.cpp:98-106 | The map loses the entry, which is returned |
| `HandleTable.HandleTable.Resize` | Enclave/leveldb/util/cache.cpp:127-151 | The map is unchanged and every entry is in the chain of its new slot |
| `HandleTable.FindAgrees` | Enclave/leveldb/util/cache.cpp:118-125 | Walking one chain decides membership in the whole table |
| `LruCache.LRUCache.Lookup` | Enclave/leveldb/util/cache.cpp:258-265 | Returns the map's entry with one more handle on it and keeps the shard's invariant |
| `LruCache.LRUCache.Insert` | Enclave/leveldb/util/cache.cpp:272-311 | The entry replaces the old one, no held entry is lost, and either usage fits the capacity or nothing is evictable |
| `LruCache.LRUCache.Release` | Enclave/leveldb/util/cache.cpp:267-270 | Gives up one handle; the deleter runs exactly when it was the last and the entry is no longer cached |
| `LruCache.LRUCache.Erase` | Enclave/leveldb/util/cache.cpp:326-329 | The map loses the key; held entries live on until released |
| `LruCache.LRUCache.Prune` | Enclave/leveldb/util/cache.cpp:331-341 | Nothing idle remains and everything held does |
| `LruCache.LRUCache.FinishErase` | Enclave/leveldb/util/cache.cpp:315-324 | An unlinked entry loses the cache's own reference and its charge |
| `LruCache.RefKeeps` | Enclave/leveldb/util/cache.cpp:223-229 | Taking a reference keeps: references are the cache's own plus the handles, idle and in-use lists split the cached entries, usage is the sum of charges, no deleter ran twice or under a handle |
| `LruCache.UnrefKeeps` | Enclave/leveldb/util/cache.cpp:231-243 | Dropping one keeps it too |
| `LruCache.UnrefDeletes` | Enclave/leveldb/util/cache.cpp:231-243 | And runs the deleter exactly for the last reference |
| `Engine.DBImpl.constructor` | Enclave/leveldb/db/db_impl.cpp:132-160 | A new engine is the machine's first state and has the invariant |
| `Engine.DBImpl.BeginWrite` | Enclave/leveldb/db/db_impl.cpp:1244-1257 | The front writer's group is in progress; nothing a read can see changes |
| `Engine.DBImpl.EndWrite` | Enclave/leveldb/db/db_impl.cpp:1277-1280 | Only after the whole group is inserted does the history, and with it the last sequence, take it in |
| `Engine.DBImpl.BeginFlush` | Enclave/leveldb/db/db_impl.cpp:503-517 | The flush takes a fresh file number and protects it from deletion |
| `Snapshots.DisjointExposesNothing` | Enclave/leveldb/db/version_set.cpp:1353-1419 | With disjoint levels neither failure of CompactionKeepsReadsIff can occur |
| `Snapshots.PickInputsPicked` | Enclave/leveldb/db/version_set.cpp:1299-1419 | The automatic choice meets the hypotheses of the snapshot theorems without any disjointness |
| `Compactions.SurvivesIff` | Enclave/leveldb/db/db_impl.cpp:973-1006 | In the middle of the pass an entry survives exactly if it is needed among the rest and not shadowed by the key just seen |
| `SkipList.SkipList.constructor` | Enclave/leveldb/db/skiplist.h:328-337 | The empty list is well formed |
| `SkipList.SkipList.LinkLevel` | Enclave/leveldb/db/skiplist.h:365-370 | Linking one level publishes the key there and leaves the insertion ready for the next |
| `DbIter.DBIter.constructor` | Enclave/leveldb/db/db_iter.cpp:51-61 | A new iterator stands nowhere, over the given entries and snapshot |
| `DbIter.DBIter.Key` | Enclave/leveldb/db/db_iter.cpp:66-69 | In both directions the user key of the entry the iterator shows |
| `DbIter.DBIter.Value` | Enclave/leveldb/db/db_iter.cpp:70-73 | In both directions the value of the entry the iterator shows |
| `Merger.MergingIterator.constructor` | Enclave/leveldb/table/merger.cpp:16-25 | A new iterator stands nowhere, over the merge of its children |
| `Merger.MergingIterator.Current` | Enclave/leveldb/table/merger.cpp:114-122 | The current child's entry is the merged sequence's entry at the iterator's place |
| `TwoLevel.TwoLevelIterator.constructor` | Enclave/leveldb/table/two_level_iterator.cpp:76-86 | A new iterator stands nowhere |
| `TwoLevel.TwoLevelIterator.Current` | Enclave/leveldb/table/two_level_iterator.cpp:34-44 | The data iterator's entry is the concatenation's entry at the iterator's place |
| `Log.Writer.constructor` | Enclave/leveldb/db/log_writer.cpp:23-26 | A new log is empty |
| `LogReader.Reader.constructor` | Enclave/leveldb/db/log_reader.cpp:18-30 | Starts at the first byte with nothing reported |
| `LogReader.Reader.Refill` | Enclave/leveldb/db/log_reader.cpp:201-224 | Skips the trailer of a block and reads the next, or shows that no header is left |
| `BlockIter.BlockIter.Key` | Enclave/leveldb/table/block.cpp:132-135 | On a built block the key of the entry stood on |
| `BlockIter.BlockIter.Value` | Enclave/leveldb/table/block.cpp:136-139 | On a built block the value of the entry; on any block bytes inside it when the lengths do not wrap |
| `BlockIter.BlockIter.CorruptionError` | Enclave/leveldb/table/block.cpp:222-228 | The iterator becomes invalid and stays usable |
| `BlockIter.BlockIter.ReadAll` | Enclave/leveldb/table/block.cpp:209-257 | SeekToFirst and Next to the end give exactly the entries |
| `BlockBuilder.BlockBuilder.constructor` | Enclave/leveldb/table/block_builder.cpp:39-55 | A new builder has no entries |
| `BlockFormat.DecodeIsReadHead` | Enclave/leveldb/table/block.cpp:55-76 | The one-byte fast path and the varint path decode the same head |
| `FilterBlock.FilterBlockBuilder.constructor` | Enclave/leveldb/table/filter_block.cpp:18-20 | A new builder has no filters and no keys |
| `TableFile.TableBuilder.constructor` | Enclave/leveldb/table/table_builder.cpp:64-69 | A new file has no entries and its filter starts at offset 0 |
| `Manifest.VersionSet.constructor` | Enclave/leveldb/db/version_set.cpp:784-803 | A new set has no edits and an empty descriptor |
| `Manifest.ReplayedIsInstalled` | Enclave/leveldb/db/version_set.cpp:914-1033 | For every prefix of fresh edits one builder gives the version that installing them one at a time gives |
| `Merkle.FillLayer` | Enclave/leveldb/db/builder.cpp:65-75 | One layer makes the next half as many slots hashes of their children |
| `Merkle.StoreProofs` | Enclave/leveldb/db/builder.cpp:124-142 | Each entry is stored with its own path |
| `HandleTable.HandleTable.constructor` | Enclave/leveldb/util/cache.cpp:75 | The empty map in four slots |
| `HandleTable.FindPointer` | Enclave/leveldb/util/cache.cpp:118-125 | The first item of the chain with that hash and key, or the chain's end |
| `HandleTable.NewLength` | Enclave/leveldb/util/cache.cpp:128-131 | The least power of two from four on that is not below the number of elements |
| `LruCache.LRUCache.constructor` | Enclave/leveldb/util/cache.cpp:202-209 | An empty shard has the invariant |
| `LruCache.LRUCache.EvictOldest` | Enclave/leveldb/util/cache.cpp:301-308 | The longest idle entry goes and no held entry does |
| `LruCache.LRUCache.Shrink` | Enclave/leveldb/util/cache.cpp:301-308 | Evicts until usage fits or nothing is idle |
| `WriteBatch.WriteBatch.Clear` | Enclave/leveldb/db/write_batch.cpp:37-40 | The bytes of the empty batch |
| `WriteBatch.WriteBatch.Count` | Enclave/leveldb/db/write_batch.cpp:82-84 | The stored count is the number of operations |
| `WriteBatch.WriteBatch.Sequence` | Enclave/leveldb/db/write_batch.cpp:90-92 | The stored sequence |
| `WriteBatch.WriteBatch.SetSequence` | Enclave/leveldb/db/write_batch.cpp:94-96 | Changes the sequence and no operation |
| `WriteBatch.AddToMemTable` | Enclave/leveldb/db/write_batch.cpp:112-126 | Operations are added in order under consecutive sequence numbers |
| `Keys.NewestOfLayers` | Enclave/leveldb/db/version_set.cpp:352-354 | If one layer is newer per key than another, the first hit of the two is the newest of both |
| `InternalKeys.LessIsTransitive` | Enclave/leveldb/db/dbformat.cpp:50-66 | The internal comparator on all byte strings is transitive, as blocks need |
| `Snapshots.PickedAlone` | Enclave/leveldb/db/version_set.cpp:1474-1482 | A file that meets nothing in the next level is picked alone whatever the size limit, so the moves of MoveKeepsReadsIff are the ones the code makes |
| `Background.Enter` | Enclave/leveldb/db/db_impl.cpp:980-987 | The remembered sequence is the previous entry's if it has the same user key, and otherwise forgotten |
| `InternalKeys.EncodedIncreases` | Enclave/leveldb/table/block_builder.cpp:82-88 | Encodings of entries or index keys that increase are in the increasing order BlockBuilder asks for |
| `TableBytes.InternalGet` | Enclave/leveldb/table/table.cpp:231-260 | On the bytes of an index block, of the data blocks and of a filter, the lookup reports the newest version of the key at or below the sequence in the whole table, deleted or with its value bytes, and not found exactly when there is none |
| `TableBytes.FindBlock` | Enclave/leveldb/table/table.cpp:235-242 | Seeking the encoded index and decoding the handle gives the block that the search on the index entries gives |
| `TableBytes.HandleRoundTrip` | Enclave/leveldb/table/format.cpp:19-34 | Reading an encoded block handle gives back its offset and size, whatever follows |

## Left out

- Durability and recovery of unflushed writes: the log append in `Write` is disabled in the source, so nothing is claimed.
- Manual `CompactRange`: its inputs may have gaps, and `FlushMissesCompaction` is about automatic compactions only.
- `Repair`: it puts every table at level 0 regardless of age, so the layering is not its contract.
- Errors of the environment: writes, syncs and file operations succeed; the failure path of `LogAndApply` and background errors are not modelled.
- Which file a compaction starts from: scores, seek counts, read sampling and statistics are floating point or heuristics; any file of levels 0 to 5 may be picked.
- The snapshot list: `Snapshots` takes the smallest live snapshot as a number.
- Memtable entry encoding and the arena: a memtable is its sorted entries, and memtables are never freed.
- Cache sharding and the destructor of a cache shard.
- AES-CMAC, the Bloom hash and the byte step of the checksum: parameters; `Log.ExtendConcat` and the log results hold for every step function.
- Persistence of the Merkle root and the placeholder checks in the table cache: the source does not use their results.
- Snappy, block trailers, the metaindex and the footer.
- Memory barriers: the skip list is sequentially consistent.
- Threads of `Write`: `WriteQueue` and `LsmSteps` are two state machines; a group of the queue is one `BeginGroup` of the engine.
- LsmSteps.EveryReadIsRight: covers runs without live snapshots; `Snapshots` says exactly when a read at an older sequence survives a compaction or a move. Values are compared on their first 112 bytes because a flush cuts or pads them there. Sequence numbers end at 2^56 - 1.
- Reads.EveryReadIsRightOverTime: one moment for each memtable and one for each level, whose files are then loaded together; runs without live snapshots.
- Iterators.NewIteratorIsRight: the sources are those of the moment the iterator is made; `Keys.InsertUnseen` and `SkipList.EveryWalkIsComplete` are about the memtable that goes on growing.
- LsmSteps.NoFileDeletedInUse: the deletion is a step of the state machine that keeps exactly the live numbers; the directory scan and the other kinds of files are not modelled.
- Engine.DBImpl.BuildTable: the proof bytes and the bytes behind a short value are parameters here; `Merkle.BuildTable` computes the proofs.
- Merkle.BuildTable: at most 2^h records; slots of leaves without a record hold arbitrary digests, because the source leaves them uninitialised although its comment says they are padded with zeros.
- Snapshots.CompactionKeepsReadsIff: the hypothesis asks for levels whose files are disjoint as internal keys, which the compaction loop keeps, and for distinct file numbers.
- Replay.ReplayIsInstallationIff: each edit may add only numbers the level does not hold when it is installed; `Journal.ManifestReplays` proves more for the engine's runs.
- Background.DoCompactionWork: every key parses as an internal key. The sizes that end an output and the overlap with grandparents are arbitrary flags per entry. Its inner flushes are separate steps of `LsmSteps`.
- Picking.SomeFileOverlapsRange: sequence numbers up to 2^56 - 1, as in the source's packing.
- SkipList.SkipList.Insert: nodes are keys and links are a map from (node, level); the random height is a parameter.
- HandleTable.HandleTable.Insert: chains are sequences rather than linked cells.
- LruCache.LRUCache.Insert: the two circular lists are sequences, oldest first. With capacity 0 the entry is in no list, and the model has no link fields to leave unset.
- DbIter.DBIter.Next: the inner iterator is a position in one sorted sequence, which `Merger` and `TwoLevel` show theirs to be and `Iterators` finds for the engine's sources; keys that do not parse are not modelled.
- Merger.MergingIterator.Seek: the children's keys are pairwise distinct, as `Iterators.NewIteratorIsRight` shows of the engine's sources.
- LogReader.Reader.ReadRecord: the initial offset is 0, so there is no resynchronisation.
- BlockIter.BlockIter.constructor: entries below 4 GiB, which the source's 32-bit offsets presuppose; bytes behind the block are an arbitrary function.
- BlockBuilder.BlockBuilder.Finish: buffers below 4 GiB.
- TableFile.TableBuilder.Add: a block is its entries; when it is full and its size in the file are parameters. Block bytes are the subject of `BlockBuilder`, `BlockIter` and `TableBytes`.
- TableBytes.InternalGet: blocks are given as their contents by file offset, every stored key parses, and reads do not fail.
- FilterBlock.FilterBlockBuilder.StartBlock: offsets do not decrease, as the source asserts.
- WriteQueue.BuildBatchGroup: a batch's byte size is a field of its writer. A writer with no batch that waits behind another is finished with its group and then forces no memtable switch, as in the source. In `AllOrNothing` a group may have any length.
- EditCodec.EncodeTo: the order in which the set of deletions is walked is a parameter. As in the source, `Clear` keeps the compaction pointers.
- Manifest.VersionSet.LogAndApply: compaction pointers, manifest rollover and the CURRENT file are not part of the state.
- WriteBatch.IterateInverts: fewer than 2^31 operations, as the source counts them in an `int`, and lengths below 2^32.
