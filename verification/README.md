# Walrus and block producer: a verified model

This project models the state-keeping cores of the Walrus repository in Dafny and proves what they promise,
over every input and every run:

* the **distributed data plane**: replicated topic metadata, lease-fenced segments, appends taken apart into
  lease check, lock, write, unlock and count, and read cursors that walk sealed segments
  (`WalKeys`, `Metadata`, `Rotation`, `DataPlane`, `SingleWriter`, `WriteLocks`, `ReaderSteps`, `Reading`, `Lossless`,
  `SealedCounts`, `SkippedRuns`, `Progress`, `Controller`);
* the **Raft log store** of Octopii and its crash recovery (`RaftLog`);
* the **block layer** of the write-ahead log: the checksum, entry framing, the block allocator with file
  reclamation, and the write-behind clean markers (`Checksum`, `Blocks`, `Allocator`,
  `FileFilling`, `TopicClean`, `CleanUpdates`);
* the **block producer**: the transactional state database, block execution, greedy packing and the chain
  (`StateDb`, `Executor`, `StateChanges`, `StableSort`, `Packing`, `HexText`, `Producer`).

Concurrent parts are transition systems: every action is a total function of the state, an action that is not
possible leaves the state alone, so every list of actions is a run, and theorems speak of every list. Parts that
update things step by step are classes and methods, each proved against the functions the theorems are about.
Three things are parameters: the header codec, the EVM and the hash of a block header. `dafny verify
dfyconfig.toml` checks everything.

## Where code and documentation differ

The model follows the code. These statements of the repository are not true of it without a condition; for each
there is a concrete case and the exact condition.

* "Sealed counts match actual WAL contents" and "closed segments remain immutable" (README.md:205-206): the lease
  is checked before the write lock is taken and not again, and a rollover names the topic but not the segment it
  was computed for. `SkippedRuns.LateWriteIsSkipped` is a run in which an entry is written after sealing and is
  never delivered. `SealedCounts.ExactIff` says when the counts are right, and `SealedCounts.TrackedExactIff` says
  it in terms of what the leader had tracked: restarts, appends not counted yet, and writes after the count.
* Delivery: a cursor can pass an entry that is never handed out, even under counts that cover every segment.
  `SkippedRuns.CoveringCountIsNotEnough` is a run in which the same tracked rollover commits twice and the second
  one seals a segment with the count of the one before. `Lossless.LosslessIff` is the exact condition, for every
  run, and `Lossless.CoveredLosslessIff` what is left of it under covering counts.
* The purge assertion of the Raft log store compares log ids, not indexes: `RaftLog.PurgeAssertionIsTooWeak`,
  `RaftLog.PurgeKeepsShapeIff`.
* A block may be handed out past the end of its file, because `MAX_ALLOC` exceeds the file size:
  `Allocator.InsideFileIff`. A block checkpointed twice, as by a start-up and a later read
  (src/wal/runtime/walrus.rs:398, src/wal/runtime/walrus_read.rs:137), can release its file while another block is
  not checkpointed: `Allocator.CheckpointedTwice`, with `Allocator.QueuedIff` for what is counted.
* A transaction that sets an account after deleting it reads it back and loses it at commit:
  `StateDb.ResurrectedIsLost`, `StateDb.CommitExactIff`. Code written in a transaction cannot be read in it:
  `StateDb.CodeReadIff`, so a contract deployed in a block cannot be loaded later in the same block.
* The account cache survives a rolled-back block: `Executor.StaleAccount`, `Executor.CacheFreshIff`. This concerns
  a caller that goes on using the executor; the producer builds a new one for every block
  (block-producer/src/main.rs:408-412).
* The gas sum of the packing loop wraps at 64 bits and then takes a transaction far over the limit:
  `Packing.WrapTakesBoth`, `Packing.WithinLimitIff`. A transaction over the limit stays in the pool forever, and
  skipped transactions of the same nonce come back in reverse order: `Packing.DrainsIff`,
  `Packing.SkippedComeBackReversed`. Transactions of a block the execution layer refuses are not put back.

## Model

| member | source | states |
|---|---|---|
| `WalKeys.RoundTrip` | distributed-walrus/src/controller/types.rs:3-16 | parsing a formatted key gives back its topic and segment, for every topic string and every u64 segment |
| `WalKeys.SplitWalKey` | distributed-walrus/src/controller/types.rs:8-13 | the separator found from the right is the one the formatter wrote, whatever fragments the topic contains |
| `WalKeys.WalKeyInjective` | distributed-walrus/src/controller/types.rs:3-5 | distinct (topic, segment) pairs never share a key |
| `WalKeys.ReformatIff` | distributed-walrus/src/controller/types.rs:8-16 | a key that parses is one the formatter writes if and only if its number has no sign and no leading zero |
| `WalKeys.KeyText` | distributed-walrus/src/controller/types.rs:3-5 | the text of a key, spelled out |
| `Metadata.ReplayDescribed` | distributed-walrus/src/metadata.rs:115-172 | after every command sequence the sealed segments are 1..current-1, the leaders 1..current with the last one the topic's leader, and the cumulative offset is the u64 sum of the sealed counts |
| `Metadata.OffsetExactIff` | distributed-walrus/src/metadata.rs:157 | the stored offset is the true total if and only if that total fits a u64 |
| `Metadata.HistoryStable` | distributed-walrus/src/metadata.rs:149-164 | no later command changes a sealed count or a segment leader on record |
| `Metadata.LookupsInRange` | distributed-walrus/src/metadata.rs:97-112 | for segments in range no lookup takes its fallback, and every replica names the leader and the count the longest log names |
| `Metadata.OwnedIsLed` | distributed-walrus/src/metadata.rs:83-95 | what a lagging replica owns is led by it in every longer log |
| `Metadata.OwnedIff` | distributed-walrus/src/metadata.rs:83-95 | after every command sequence a node owns a segment if and only if it is the last one of its topic and the node is the leader the commands named last |
| `Metadata.LookupsOutOfRange` | distributed-walrus/src/metadata.rs:97-112 | outside the segments on record there is no count, and the leader lookup falls back to the leader named last |
| `Metadata.NodesDescribed` | distributed-walrus/src/metadata.rs:167-170 | the node table maps each node to the address it was given last, and nothing else touches it |
| `Metadata.ReplyMeans` | distributed-walrus/src/metadata.rs:116-172 | after every command sequence the reply is "created" if and only if some topic gets its first segment, "rolled" if and only if some topic gets one more, and with any other reply no topic changes |
| `Metadata.MetadataStore.ApplyCommand` | distributed-walrus/src/metadata.rs:116-172 | the in-place update and the reply are those of the specification, per command |
| `Metadata.MetadataStore.OwnedTopics` | distributed-walrus/src/metadata.rs:83-95 | the loop collects exactly the topics led by the node, with their open segment; `Metadata.OwnedIff` says which these are |
| `Rotation.FairRotation` | distributed-walrus/src/controller/mod.rs:464-478 | with own-leader rollovers every window of n segments gives each of the n voters exactly one, if and only if the window starts at a voter |
| `Rotation.LeadersCycle` | distributed-walrus/src/controller/mod.rs:472-478 | consecutive leaders run through the sorted voters cyclically |
| `Rotation.StrangerTakesASlot` | distributed-walrus/src/controller/mod.rs:472 | with a non-voter as first leader some voter gets no segment in the first window |
| `Rotation.ProposeRollover` | distributed-walrus/src/monitor.rs:105-140 | a rollover is proposed exactly at the limit, with the tracked count and the next voter |
| `DataPlane.RunExtends` | distributed-walrus/src/bucket.rs:44-58 | over every run the log, the WALs, the read positions and the deliveries only grow |
| `SingleWriter.AtMostOneWriter` | distributed-walrus/src/bucket.rs:60-118 | in every run, with lagging replicas and late lease sets, at most one node ever holds the lease of a segment, has an append to it in flight, or has written to it |
| `SingleWriter.RoutedToTheWriter` | distributed-walrus/src/controller/mod.rs:226-243 | a reader with any applied prefix sends a read of a segment in range to the only node whose WAL may hold its entries |
| `SingleWriter.RunSafe` | distributed-walrus/src/controller/mod.rs:91-101 | every computed lease set and everything a node touches belongs to segments it leads |
| `WriteLocks.OneAppendInside` | distributed-walrus/src/bucket.rs:76-108 | in every run the append between taking and releasing the lock of a key is exactly the one the lock names, so there is never a second |
| `WriteLocks.WrittenWasAsked` | distributed-walrus/src/bucket.rs:44-51 | in every run each entry of a WAL, and each append in flight, was sent to that node for that key |
| `WriteLocks.AppendAlone` | distributed-walrus/src/bucket.rs:44-51 | with the lease there and the key free, the steps of an append write its entry once at the end of its key, count it once and leave locks and appends as they were |
| `WriteLocks.AppendHeldUp` | distributed-walrus/src/bucket.rs:98-118 | without the lease, or with the key locked, nothing is written |
| `ReaderSteps.AsksOrLeaves` | distributed-walrus/src/controller/mod.rs:204-243 | a reader starts at segment 1 or where its cursor was left; it leaves a segment unread if and only if it is sealed by its prefix of the log and as many entries were delivered as that prefix sealed it with; otherwise it asks the leader that prefix names |
| `ReaderSteps.AnsweredFromTheFront` | distributed-walrus/src/bucket.rs:53-58 | the answer is the first entry not handed out, which is then handed out, or "empty" if there is none |
| `ReaderSteps.MovesOnReply` | distributed-walrus/src/controller/mod.rs:245-266 | an entry moves the cursor by one, "empty" moves it to the start of the next segment if and only if the segment was seen as sealed |
| `Reading.DeliveredOnceInOrder` | distributed-walrus/src/controller/mod.rs:199-276 | in every run no entry of a segment is handed out twice, and the order of hand-outs is the WAL order |
| `Reading.RunReads` | distributed-walrus/src/controller/mod.rs:199-276 | cursors stay within the segments on record and never count more than was handed out; what was handed out is exactly the consumed front of each WAL |
| `Reading.LeaveByCount` | distributed-walrus/src/controller/mod.rs:214-224 | a cursor that leaves a segment by count leaves it when everything stored there was handed out, if counts cover |
| `Lossless.LosslessIff` | distributed-walrus/src/controller/mod.rs:199-276 | in every run, no cursor ever stands past an entry not handed out if and only if nothing is ever written to a segment a cursor has passed, no "empty" answer is closed that a write has overtaken, and no segment is counted out while it holds such an entry |
| `Lossless.CoveredLosslessIff` | distributed-walrus/src/controller/mod.rs:214-265 | under covering sealed counts the first two conditions are enough and needed |
| `Lossless.NoEntryLeftBehind` | distributed-walrus/src/controller/mod.rs:199-276 | in every run with covering counts that keeps those two conditions, each entry of a segment a cursor has passed was handed out |
| `Lossless.FrozenIsTimely` | distributed-walrus/src/bucket.rs:98-108 | rollovers with large enough counts and no write to a sealed segment bring all of this about |
| `Lossless.CoverAtEnd` | distributed-walrus/src/metadata.rs:149-164 | counts that cover at the end of a run have covered at every point of it |
| `Progress.AvailableIsRead` | distributed-walrus/src/controller/mod.rs:199-276 | read progress: after every run that ends with covering counts, when a segment a node knows of, at or after its cursor, holds an entry not handed out and the leaders can be reached, reading steps of that node alone hand it an entry of the topic |
| `Progress.ReadProgress` | distributed-walrus/src/controller/mod.rs:204-267 | each turn of the read loop hands out an entry or moves the cursor one segment closer, so the loop reaches the waiting entry's segment at the latest |
| `SealedCounts.ExactIff` | distributed-walrus/src/bucket.rs:98-108 | sealed counts equal WAL lengths throughout a run if and only if every rollover carries the true count and no append writes to a sealed segment |
| `SealedCounts.TrackedExactly` | distributed-walrus/src/controller/mod.rs:297-302 | in every run a WAL holds exactly what its node has tracked, what it has written and not counted yet, and what was there when it last restarted |
| `SealedCounts.TrackedCountIff` | distributed-walrus/src/controller/mod.rs:457-462 | the count tracked at one point is the WAL length at a later one if and only if the node had not restarted on a WAL with entries, had nothing uncounted, and has written nothing since |
| `SealedCounts.TrackedExactIff` | distributed-walrus/src/controller/mod.rs:457-491 | in every run whose rollovers carry counts the sealed segment's leader tracked for it earlier, sealed counts match the WALs throughout if and only if that holds of every such count and no append writes to a sealed segment |
| `SkippedRuns.LateWriteIsSkipped` | distributed-walrus/src/bucket.rs:99-103 | a run with a tracked rollover in which an entry written after the sealing is passed over by the cursor |
| `SkippedRuns.CoveringCountIsNotEnough` | distributed-walrus/src/metadata.rs:39-43 | a run in which the rollover its leader tracked for segment 1 commits twice and seals segment 2 too; the counts cover throughout and an entry of segment 2 is passed over |
| `Controller.Storage.UpdateLeases` | distributed-walrus/src/bucket.rs:60-74 | afterwards the leases are exactly the expected ones |
| `Controller.Storage.AppendByKey` | distributed-walrus/src/bucket.rs:44-51 | refused without the lease or by the engine; otherwise one entry is added under that key and nothing else changes |
| `Controller.NodeController.UpdateLeases` | distributed-walrus/src/controller/mod.rs:91-101 | the leases become those of the open segments the node leads |
| `Controller.NodeController.RecordAppend` | distributed-walrus/src/controller/mod.rs:297-302 | the count of the key grows by the number of entries, no other count changes |
| `Controller.NodeController.AppendWithRetry` | distributed-walrus/src/controller/mod.rs:540-565 | the entry is stored once or not at all, and stored if and only if the engine takes it while the lease is there, at first, or while the metadata grants it, after the refresh |
| `Controller.NodeController.ForwardAppend` | distributed-walrus/src/controller/internal.rs:6-29 | for a node whose metadata replayed any log: accepted if and only if that log makes the node the leader of the open segment and the engine does not fail twice; counted once; a rollover of that topic is proposed exactly when the count reaches the limit |
| `Controller.LeasedIffOwned` | distributed-walrus/src/controller/mod.rs:92-97 | a key is in the lease set if and only if its topic and segment are owned |
| `Controller.LeasedIffLeads` | distributed-walrus/src/controller/mod.rs:92-97 | a key is in the lease set if and only if the log makes the node the leader of that open segment |
| `Controller.LeasesCatchUp` | distributed-walrus/src/controller/mod.rs:91-101 | a node that applies the rest of the log and refreshes its leases holds exactly those of the open segments it leads, whatever it held before |
| `Controller.ReadOneForTopic` | distributed-walrus/src/controller/mod.rs:199-268 | returns the first entry not handed out of the first segment the cursor may not leave, from that segment's leader, and moves no other read position |
| `RaftLog.RecoveryIsExact` | octopii/src/openraft/storage.rs:438-478 | replaying the records rebuilds exactly the in-memory store, for every operation sequence |
| `RaftLog.RecoveryFromCut` | octopii/src/openraft/storage.rs:438-577 | replaying any cut of the records gives the state after some prefix of the operations, with at most the last append partly applied |
| `RaftLog.StoreHolds` | octopii/src/openraft/storage.rs:64-148 | after every operation list, legal or not, the store holds the vote saved last, the commit position saved last, the greatest log id purged, and at each index the entry last appended there, unless a later truncation or accepted purge removed it; each read off the list alone |
| `RaftLog.RecoveredHolds` | octopii/src/openraft/storage.rs:438-478 | a restart on the records of any operation list finds that vote, commit position, purge point and log |
| `RaftLog.GreatestIsGreatest` | octopii/src/openraft/storage.rs:128-147 | the purge point is one of the ids purged and none of them is above it |
| `RaftLog.LogShape` | octopii/src/openraft/storage.rs:64-148 | under legal operations the indexes form one run just after the purge point, and the last log id is its end, or the purge point when it is empty |
| `RaftLog.LegalKeepsShape` | octopii/src/openraft/storage.rs:101-147 | each legal operation keeps that shape |
| `RaftLog.PurgeKeepsShapeIff` | octopii/src/openraft/storage.rs:128-147 | a purge that passes the assertion keeps the shape if and only if its index does not move back or the log is empty |
| `RaftLog.PurgeAssertionIsTooWeak` | octopii/src/openraft/storage.rs:131 | a purge with a higher term and a lower index passes the assertion |
| `RaftLog.WalLogStore.constructor` | octopii/src/openraft/storage.rs:429-478 | the recovery loop yields the replayed store; on the records of an operation list, what that list stored |
| `RaftLog.WalLogStore.AppendEntries` | octopii/src/openraft/storage.rs:539-561 | the entries enter the log and one record each is persisted, in order |
| `RaftLog.WalLogStore.TruncateFrom` | octopii/src/openraft/storage.rs:563-569 | exactly the entries from the index on disappear, and one record is persisted |
| `RaftLog.WalLogStore.PurgeThrough` | octopii/src/openraft/storage.rs:571-577 | exactly the entries up to the index disappear, or nothing changes where the assertion fails |
| `RaftLog.WalLogStore.SaveVoteRecord` | octopii/src/openraft/storage.rs:531-537 | one step of the store and one record; `RaftLog.StoreHolds` and `RaftLog.RecoveredHolds` say that the vote is there from then on, restarts included, until the next one is saved |
| `RaftLog.WalLogStore.SaveCommittedRecord` | octopii/src/openraft/storage.rs:514-524 | the same for the commit position |
| `RaftLog.WalLogStore.LastLogId` | octopii/src/openraft/storage.rs:64-78 | the entry with the largest index, or the purge point when there is none |
| `Checksum.Checksum64` | src/wal/config.rs:70-80 | the loop computes the 64-bit FNV-1a hash of the bytes |
| `Checksum.OneByteChangesHash` | src/wal/config.rs:75-78 | changing exactly one byte of a payload of any length changes the hash, from any starting value |
| `Checksum.KnownValues` | src/wal/config.rs:70-80 | the published FNV-1a values of nothing and of "a" |
| `Checksum.XorBits` | src/wal/config.rs:76 | a bit of the exclusive or is set if and only if the two bits differ |
| `Checksum.OnlyLowByteMixed` | src/wal/config.rs:76 | mixing in a byte changes the lowest byte of the hash alone |
| `Checksum.OneByteDetected` | src/wal/config.rs:70-80 | hence it changes the checksum |
| `Checksum.MulInjective` | src/wal/config.rs:77 | a wrapping multiplication by a number with an inverse is injective |
| `Blocks.CorruptionDetected` | src/wal/block.rs:80-133 | with an intact header, a read of a payload in which exactly one byte has changed is an error |
| `Blocks.WriteThenRead` | src/wal/block.rs:32-133 | a read at the place of a write returns its payload and its framed length |
| `Blocks.WrittenLayout` | src/wal/block.rs:43-77 | the bytes of a written entry: two length bytes, low one first, the encoded length, owner, following block and checksum, zeros up to 256, the payload |
| `Blocks.WalkRecovers` | src/wal/block.rs:32-133 | entries written back to back are recovered in order by walking with the consumed lengths |
| `Blocks.RollbackRestores` | src/wal/block.rs:135-146 | zeroing the planned headers of a trailing batch makes the walk return exactly the entries before it, whatever part of the batch had been written |
| `Blocks.ReadDepends` | src/wal/block.rs:80-133 | a read depends only on the bytes of the entry it looks at |
| `Blocks.Write` | src/wal/block.rs:32-78 | the file holds the framed entry at the place and is unchanged elsewhere; refused when the header is too large |
| `Blocks.Read` | src/wal/block.rs:80-133 | the buffer-by-buffer read gives the specified result, errors included |
| `Blocks.ZeroRange` | src/wal/block.rs:135-146 | the range is zero afterwards and the rest unchanged |
| `Allocator.MillisFreshIff` | src/wal/config.rs:47-68 | a file name is the clock where that is ahead of the last name, and the next number otherwise; it is new if and only if the last one was not the largest u64 |
| `Allocator.RunInv` | src/wal/runtime/allocator.rs:47-177 | over every legal run the counters are the sizes of the sets they stand for, and ids, offsets and queue are in order |
| `Allocator.QueuedIff` | src/wal/runtime/allocator.rs:188-203 | over every run, with any number of checkpoints of a block, a file has been queued for deletion if and only if it is full and not empty, its blocks are unlocked, and there were at least as many checkpoint calls for it as it has blocks |
| `Allocator.ReclaimedExactly` | src/wal/runtime/allocator.rs:188-203 | when no block is checkpointed twice, a file is queued for deletion, once, if and only if it is full and all its blocks, at least one, are unlocked and checkpointed |
| `Allocator.NeverHandedAgain` | src/wal/runtime/allocator.rs:47-141 | no block of a queued file is handed out afterwards |
| `Allocator.CheckpointedTwice` | src/wal/runtime/allocator.rs:231-249 | a run that queues a file one of whose blocks was never checkpointed |
| `Allocator.BlocksDisjoint` | src/wal/runtime/allocator.rs:47-141 | block ids strictly increase and blocks of one file never overlap |
| `Allocator.InsideFileIff` | src/wal/runtime/allocator.rs:85-141 | a block lies inside its file if and only if the request is at most the file size |
| `FileFilling.PlacedWhereItFits` | src/wal/runtime/allocator.rs:47-141 | an allocation, default or sized, leaves the open file if and only if the request, in whole blocks, does not fit the rest of it; the block gets the next id and lies right behind the last one, or at the start of a file named by the clock |
| `FileFilling.FilesPacked` | src/wal/runtime/allocator.rs:47-141 | in every run blocks lie in their files one behind the other without gaps, and a file is left only for a block that does not fit |
| `FileFilling.DefaultFilesAreFull` | src/wal/runtime/allocator.rs:47-82 | in every run of default allocations each file that was left holds exactly 100 blocks |
| `FileFilling.Refused` | src/wal/runtime/allocator.rs:86-91 | a request changes nothing if and only if it is for 0 bytes or above the cap |
| `FileFilling.NoIdReused` | src/wal/runtime/allocator.rs:161-177 | after a fast-forward the next block id stays at or beyond the given one for the rest of the run |
| `Allocator.ReadsIsolated` | src/wal/runtime/allocator.rs:47-141 | a write in one block never changes what a read in another returns |
| `Allocator.BlockAllocator.GetNextAvailableBlock` | src/wal/runtime/allocator.rs:47-82 | the default allocation step: the next block of the open file below the file size, the first of a new file from there on |
| `Allocator.BlockAllocator.AllocBlock` | src/wal/runtime/allocator.rs:85-141 | the sized allocation step: whole blocks, at the current offset if they fit the file and in a new file otherwise; refused for 0 and above the cap |
| `Allocator.BlockAllocator.FastForwardTo` | src/wal/runtime/allocator.rs:161-177 | the next block id never moves back and is at least the given one |
| `Allocator.BlockAllocator.SetBlockUnlocked` | src/wal/runtime/allocator.rs:311-321 | the unlock step with its flush check |
| `Allocator.BlockAllocator.SetCheckpointedTrue` | src/wal/runtime/allocator.rs:231-249 | the checkpoint step with its flush check |
| `Allocator.BlockAllocator.FlushFile` | src/wal/runtime/allocator.rs:188-203 | the file is queued exactly when its counters say so |
| `TopicClean.StoredUnlessMoving` | src/wal/runtime/topic_clean.rs:106-244 | at every point of every interleaving, crashes included, a topic's marker on disk is the live one unless it is queued, pending or between an increment and its send |
| `TopicClean.DiskGenerationGrows` | src/wal/runtime/topic_clean.rs:64-76 | the generation on disk never decreases |
| `TopicClean.PersisterProgress` | src/wal/runtime/topic_clean.rs:201-244 | every effective step of the persister reduces the work left, in whatever order the steps come |
| `TopicClean.ConvergedWhenIdle` | src/wal/runtime/topic_clean.rs:201-244 | with no update in flight and no step left to the persister every marker on disk is the live one |
| `CleanUpdates.UpdateCompletes` | src/wal/runtime/topic_clean.rs:106-183 | whatever the persister and the updates of other topics do between its steps, an update leaves the flag it wants; the generation is one higher and the topic queued if and only if that is a change |
| `TopicClean.TopicCleanTracker.UpdateState` | src/wal/runtime/topic_clean.rs:178-183 | the flag is as desired; the generation moves and the persister is told exactly when the flag changed |
| `TopicClean.TopicCleanTracker.PersistRound` | src/wal/runtime/topic_clean.rs:204-227 | one undisturbed round leaves disk and memory equal for every topic |
| `TopicClean.TopicCleanTracker.PersistUpdates` | src/wal/runtime/topic_clean.rs:64-76 | each topic holds one of its written records, or what it held before |
| `StateDb.CommitExactIff` | block-producer/src/db/redb_db.rs:444-501 | a committed transaction leaves the tables that direct writes leave if and only if it sets no account after deleting it without deleting it again |
| `StateDb.OverlayRefines` | block-producer/src/db/redb_db.rs:211-507 | over every list of calls without a committed resurrection, the database is one whose transactions work on a copy of the tables |
| `StateDb.ReadsSeeWrites` | block-producer/src/db/redb_db.rs:211-310 | account, slot and block-hash reads inside a transaction see its writes |
| `StateDb.ReadAfterWrite` | block-producer/src/db/redb_db.rs:211-432 | inside and outside a transaction, the next read of an account, slot or block hash finds what was written, and every other read answers as before; code is found at once outside a transaction, and from the commit on inside one |
| `StateDb.ReadAfterCommit` | block-producer/src/db/redb_db.rs:444-501 | a commit changes no answer but those for accounts deleted and code written in the transaction |
| `StateDb.CodeReadIff` | block-producer/src/db/redb_db.rs:367-376 | a code read agrees with the transaction's writes if and only if the last code written under the hash is already in the table |
| `StateDb.TransactionEnds` | block-producer/src/db/redb_db.rs:434-507 | a rollback leaves tables and reads as before the transaction; a commit closes it |
| `StateDb.ChangedExactly` | block-producer/src/db/redb_db.rs:154-159 | the recorded addresses are exactly those written since the transaction began, each once |
| `StateDb.ResurrectedIsLost` | block-producer/src/db/redb_db.rs:240-285 | delete then set in one transaction: the read finds the account, the commit drops it |
| `StateDb.RedbStateDB.CommitTransaction` | block-producer/src/db/redb_db.rs:444-501 | the copying loops write the buffer over the tables, deletions last; an error without a transaction |
| `StateDb.RedbStateDB.BeginTransaction` | block-producer/src/db/redb_db.rs:434-442 | an empty buffer and an empty change list, or an error when one is open |
| `StateDb.RedbStateDB.RollbackTransaction` | block-producer/src/db/redb_db.rs:503-507 | the buffer and the change list are dropped, the tables kept |
| `StateDb.RedbStateDB.ReadAccount` | block-producer/src/db/redb_db.rs:211-238 | buffer first, then deletions, then the table |
| `StateDb.RedbStateDB.ReadStorage` | block-producer/src/db/redb_db.rs:287-310 | the buffered slot, else the stored one, else zero |
| `Executor.SkippedInvisible` | block-producer/src/executor/block_executor.rs:48-182 | a block and the same block without its rejected transactions leave the same database and cache, the same error or the same gas and successes |
| `Executor.AllCounted` | block-producer/src/executor/block_executor.rs:77-160 | successes and failures add up to the number of transactions |
| `Executor.GasIsTheSum` | block-producer/src/executor/block_executor.rs:87 | the total is the u64 sum of the gas of the executed transactions |
| `Executor.ReceiptIsPrefixSum` | block-producer/src/executor/block_executor.rs:133-143 | a receipt carries the gas used up to and including its transaction, unless a later transaction has the same key |
| `Executor.FatalRestores` | block-producer/src/executor/block_executor.rs:147-153 | a block that ends in an error leaves the database as it was, and only a fatal error ends it |
| `Executor.BlockMatchesReference` | block-producer/src/executor/block_executor.rs:48-182 | a block reports what direct execution on plain tables reports, and leaves its tables if and only if it resurrects no account; code comes from before the block |
| `Executor.CacheFreshIff` | block-producer/src/executor/revm_adapter.rs:146-167 | after a failed `transact` the executor sees the accounts as the database has them if and only if it saw so all those cached then or looked at by that transaction |
| `Executor.StaleAccount` | block-producer/src/executor/revm_adapter.rs:156-163 | a rolled-back credit that the executor, when it is used again, goes on seeing |
| `Executor.BlockExecutor.BasicInfo` | block-producer/src/executor/revm_adapter.rs:51-83 | the account as visible, with the default for a missing one; asking changes no later answer |
| `Executor.ValidIff` | block-producer/src/executor/transaction.rs:55-127 | validation accepts a transaction if and only if its fields parse, its gas is positive, its nonce is not below the account's, and gas times price plus value fits 256 bits and the balance; each named error says which of these fails, with the numbers |
| `Executor.BlockExecutor.ValidateTransaction` | block-producer/src/executor/transaction.rs:55-97 | the answer is positive if and only if the sender's account, as the database reads it inside or outside a transaction, can pay in that sense |
| `Executor.BlockExecutor.ApplyStateChanges` | block-producer/src/executor/revm_adapter.rs:172-216 | the loops make exactly the writes of the reported changes, in order; `StateChanges.ChangesApplied`, `StateChanges.CodesApplied` and `StateChanges.OthersKept` say what tables these leave |
| `StateChanges.SlotsWritten` | block-producer/src/executor/revm_adapter.rs:206-211 | each slot of the account holds the value of its last changed entry, if there is one, and what it held before otherwise; nothing else changes |
| `StateChanges.ChangesApplied` | block-producer/src/executor/revm_adapter.rs:172-216 | after the changes of a transaction, one per address, a destroyed account is absent, a touched one has the reported balance, nonce, code hash and slots, any other is as before |
| `StateChanges.CodesApplied` | block-producer/src/executor/revm_adapter.rs:195-203 | under each hash lies non-empty code that a touched account of the transaction brought, if any did and the hash is not that of empty code, and what lay there before otherwise |
| `StateChanges.OthersKept` | block-producer/src/executor/revm_adapter.rs:172-216 | accounts and slots of addresses not reported, and all block hashes, are as before |
| `StateChanges.ChangesAreRead` | block-producer/src/executor/revm_adapter.rs:146-216 | the rest of the block reads the accounts and slots as reported |
| `StateChanges.EvmSeesReads` | block-producer/src/executor/revm_adapter.rs:51-112 | each slot, block hash and code the EVM is shown is what the database reads, and each account too, unless it is cached; an unknown account is empty |
| `StateChanges.EnvCarriesTx` | block-producer/src/executor/transaction.rs:150-187 | an environment is built if and only if all fields can be read, and it carries the transaction's own caller, target, value, data, gas, nonce, price and chain |
| `StateChanges.ReceiptKeys` | block-producer/src/executor/block_executor.rs:73-74 | a receipt is kept under the transaction's hash, or under a key no other transaction without a hash has |
| `Executor.BlockExecutor.RunBlock` | block-producer/src/executor/block_executor.rs:48-182 | begin, the transaction loop, and commit or rollback leave the specified state and report |
| `StableSort.SortedIsStable` | block-producer/src/main.rs:254-258 | the result is in nonce order and keeps the transactions of each nonce in the order given |
| `StableSort.StableSortUnique` | block-producer/src/main.rs:254-258 | that contract determines the result, whatever the sort algorithm |
| `Packing.SelectionSound` | block-producer/src/main.rs:242-316 | the selection is in nonce order; it and the remaining pool are the pool as a multiset; it is within the limit if and only if the sum overflows nowhere, and then nothing left would fit |
| `Packing.WithinLimitIff` | block-producer/src/main.rs:268-302 | the selected gas is within the limit if and only if the 64-bit sum overflows at no candidate |
| `Packing.GreedyWithoutWrap` | block-producer/src/main.rs:268-302 | without overflow the estimate is the gas of the selection and no skipped transaction fits beside it |
| `Packing.WrapTakesBoth` | block-producer/src/main.rs:273 | the family of overflows: a transaction far over the limit is taken and the estimate drops to zero |
| `Packing.ChosenStable` | block-producer/src/main.rs:249-302 | transactions of the same nonce are selected in the order of the pool |
| `Packing.SkippedComeBackReversed` | block-producer/src/main.rs:300 | skipped transactions of the same nonce stand in the opposite order next round |
| `Packing.DrainsIff` | block-producer/src/main.rs:242-316 | without refill and overflow the pool is empty after as many rounds as it had transactions if and only if each fits alone; any other stays forever |
| `Packing.PacksNothingIff` | block-producer/src/main.rs:268-302 | nothing is selected if and only if no candidate fits the limit on its own |
| `HexText.TextRead` | block-producer/src/main.rs:341-345 | a number is read back from its hexadecimal text with any number of leading "0x", a plus sign, leading zeros and either case of each letter; if it does not fit a u64 nothing is read |
| `HexText.NumbersUsed` | block-producer/src/main.rs:254-270 | packing uses that gas and sorting that nonce; a text that is no number counts as 21000 gas and nonce 0 |
| `Producer.RefillAppends` | block-producer/src/main.rs:211-239 | fetched transactions go behind the pool, which is not overfilled; `Producer.RefillTakes` says which they are |
| `Producer.RefillTakes` | block-producer/src/main.rs:211-239 | a refill takes the first of the transactions the log offers before its first "nothing" or error, as many as there is room for, and fails if and only if an error comes while there is room |
| `Producer.RoundOutcome` | block-producer/src/main.rs:169-208 | a round adds one block, with the roots the execution layer reported, if and only if the log did not fail, some transaction of the refilled pool fits a block and the block was accepted; it loses transactions if and only if such a block was refused |
| `Producer.AllTakenIff` | block-producer/src/main.rs:211-239 | over every run all the log offered was taken, in order, if and only if the pool had room for each offer |
| `Producer.RunSound` | block-producer/src/main.rs:169-208 | over every run of rounds the blocks are numbered from 0, each names the hash of the one before, none is empty, each is in nonce order; the transactions the log offered while there was room are those in the pool, in the chain and in refused blocks, as multisets |
| `Producer.BlockProducer.RefillPool` | block-producer/src/main.rs:211-239 | afterwards the pool is the old one followed by the first transactions the log offered, as many as there was room for; an error is reported if and only if one came while there was room |
| `Producer.BlockProducer.PackCandidates` | block-producer/src/main.rs:260-302 | the loop selects as specified and the pool holds the skipped ones in reverse |
| `Producer.BlockProducer.SelectTransactionsForBlock` | block-producer/src/main.rs:242-316 | refill, sort and pack; nothing is selected when the log fails |
| `Producer.BlockProducer.ProduceBlock` | block-producer/src/main.rs:169-208 | one round of the specification; a block is returned, and the chain grows by it, if and only if something can be packed and the block is accepted |

## Left out

- Raft consensus, membership and join, the QUIC/TLS transport, RPC handler, TCP client protocol, command lines, JSON-RPC gateway, generators, wallets and metrics: plumbing around the cores. One agreed command log is taken as given.
- The Walrus reader and writer engine: it appears as one FIFO per key with a persistent read position.
- Lost read replies: in `DataPlane` a node does not restart while a reply that carries an entry is on its way to it.
- Initial leader choice by hash (`ensure_topic`) and the test controls of the controller, such as forced revocation of leases.
- Metadata snapshot and restore, and the snapshots of the Raft state machine: serialisation of a whole value.
- Controller.NodeController.AppendWithRetry: an engine write that fails stores nothing; the source does not say what a failed batch leaves behind.
- Controller.NodeController.ForwardAppend: one call with nothing interleaved; interleaved appends are the steps of `DataPlane`.
- Controller.ReadOneForTopic: one call while the metadata and the other readers stand still; interleaved reads are the steps of `DataPlane`.
- `read_all` of the record log is taken to return all appended records in order, per recovery; records that do not decode, failing writes to it, and the order of records of concurrent calls are not modelled.
- 64-bit widths of segment numbers, block ids, generations, block numbers and tracked counts: unbounded numbers here. The widths of the sealed offset, the reclamation counters, file names, the checksum and both gas sums are modelled.
- Allocator.ReclaimedExactly: one allocator, each tracker call atomic, each block unlocked and checkpointed at most once. `Allocator.QueuedIff` drops the last condition and keeps the u16 counter of calls below its wrap; a torn read of the four counters is not modelled.
- Allocator.ReadsIsolated: for a written block that lies inside its file, see `Allocator.InsideFileIff`, and a read that stays inside its own block.
- Blocks.Write: for an entry inside the file, as src/wal/storage.rs:169-170 asserts in debug builds; what the two storage backends do beyond the end of a file is not modelled.
- Executor.StaleAccount: needs an executor that is used again after a failed block, which the producer never does.
- Failing file creation in the allocator; a read outside a file is an error here.
- The header codec is any pair of functions that is faithful on what it encodes; the EVM, hashes and roots are any functions; bincode and JSON forms are not modelled.
- Persist errors of the clean markers, and the two-file rename of the marker file: a write of markers is one step.
- `get_all_storage`, the built-in accounts and `save_block` of the state database; database I/O errors.
- The text forms of a transaction: `Executor` takes each field parsed or marked as unparsable; only the nonce and gas texts of `Packing` are read character by character.
- The state-root calculation, logs, bloom filters and the other fields of a receipt.
- The execution layer behind the producer: whether a block is accepted is an input of each round.
- `WalrusStateDB`, `return_to_pool` and `fetch_transactions`, which the producer never uses.
