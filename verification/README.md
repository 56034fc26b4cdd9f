# A model of the dynamic extension framework

The framework puts a ring buffer in front of a hierarchy of immutable sorted shards. Inserts
and tombstones go to the buffer; when it fills, a reconstruction works on a copied *epoch*:
it merges levels, flushes the buffer into level 0 and installs the copy, while queries stay
pinned to the epoch they started on.

One number ties the parts together: the **net count** of a record, its inserts minus its
tombstones (`Records.Net`). The project proves that no step of the epoch protocol, of a
reconstruction, of a merge or of a recovery outside one window changes it, and that what a
query returns depends on nothing else.

| files | what they model |
|---|---|
| `Records` | records, their wrapped form, net counts |
| `MutableBuffer`, `EpochProtocol`, `EpochProofs`, `EpochRuns`, `EpochHistory` | the epoch and buffer-head protocol as a transition system, its inductive invariant, what holds in every reachable state, and its history told by the actions alone |
| `EpochCycles`, `EpochWaits`, `StaleCheck`, `EpochExamples` | whole reconstructions, the two waits, when the assertion before the head moves holds, and two concrete runs |
| `RingBuffer`, `DynamicExtension` | ring, views and framework object with in-place steps, the loops running while other threads act |
| `EpochStructures` | the protocol joined to the structures: every epoch has its levels and shards |
| `ExtensionStructure`, `ShardOrder`, `ShardSources`, `ShardHistory`, `PlannerProofs`, `PlannerBentleySaxe`, `PlannerRuns`, `PlannerLaws`, `StructureRuns`, `StructureLaws`, `Numerals`, `PendingShard` | the reconstruction planner and executor for the three layouts, which flushes each shard holds, and the number systems they count in |
| `InternalLevel`, `StructureExecutor`, `ShardBuilding`, `TreeExecutor` | levels and structure as objects; reconstructions and flushes that build real external trees, and scans over them |
| `MergeBag`, `Paging`, `ExternalMerge`, `ExternalIndex`, `ExternalBuild`, `ExternalSearch`, `ExternalISAMTree` | external merge sort, bottom-up index, search and iterator over a file of pages |
| `MergeQueue`, `SortedMerge`, `IsamGeometry`, `IsamTree` | in-memory merging and the in-memory index |
| `ScanOrder`, `RangeScan`, `ScanRuns` | the merging range scan, alone and over whole runs |
| `Nearest`, `VPTree`, `Knn` | VP-tree construction and pruned search, k-NN over buffer and shards |
| `WriteAheadLog`, `Durability`, `DurableStructures`, `ConcurrentLog` | the log, and what crashes at any points of a run leave: of a serial run, and of one with operations arriving during flushes |

## Assumptions

- A compare-and-swap iteration (choose a slot, then swap) is one step, and so is `append`
  (reserve a slot, then write it). The code loads the slot separately; the else branches of
  `end_job` and `release_head_reference` do not look at the slot's identity again. The model
  keeps those branches as they are, and `EpochRuns.AssertionsHold` shows that with this
  granularity they hit the right slot.
- The watermark check and the setting of the reconstruction flag are two steps, as in the
  code. Where an assertion of the code fails, the process stops there.
- Windows on the buffer are taken through an epoch (`Epoch::get_buffer`). A window and the
  pin of its epoch are given back independently, because a query ends its job before its
  window is destroyed.
- Integers are unbounded; the code narrows the tail to 32 bits (`MutableBuffer.h:73`).
- Deletes are tombstones; where tags occur, the contracts say what becomes of them. Shards
  that are merged have records: the merges read the first record of every input.
- In a serial run the append that finds the low watermark reached runs the flush before it
  logs its own operation, as the serial scheduler does.
- Priority queues are bags that show one of their extremes; which of several equal entries
  they show is left open. The second pop of `sorted_array_merge` removes the entry that
  `peek(1)` returned. Sorting routines may leave equal records in any order.
- Distances are real numbers below the value that the search starts its bound with.

## Model

| member | source | states |
|---|---|---|
| `EpochProofs.StepKeepsInv` | include/framework/DynamicExtension.h:476-676 | every action of every job, of an append and of the reconstruction keeps the invariant on slots, counts, heads, ring, windows and net counts |
| `EpochRuns.RunKeepsInv` | include/framework/DynamicExtension.h:476-676 | the invariant holds after any interleaving of any length |
| `EpochRuns.NothingHiddenOrDoubled` | include/framework/DynamicExtension.h:515-570 | for every epoch that a job holds or can pin, structure plus buffer from its head on count each accepted operation exactly once |
| `EpochRuns.JobSeesAPrefix` | include/framework/scheduling/Epoch.h:63-84 | in every reachable state, structure and window of a job count exactly the history up to the end of its window; `EpochHistory` says that this end is where the history ended when the window was taken |
| `EpochRuns.CountsAreHolders` | include/framework/DynamicExtension.h:841-888 | every slot's count is the number of holders of its epoch, every head's count the number of windows from it, and no window starts elsewhere |
| `EpochRuns.HeldEpochsLive` | include/framework/DynamicExtension.h:572-616 | no job holds a retired epoch |
| `EpochRuns.AssertionsHold` | include/framework/DynamicExtension.h:553-570 | in every reachable state there is no next epoch when one is created, unpinning and releasing hit the slot they mean, and the new head lies between head and tail |
| `EpochRuns.HeadsAreClose` | include/framework/structure/MutableBuffer.h:272-296 | tail - head never exceeds the high watermark, and after the first advance tail - old head never exceeds the capacity |
| `EpochRuns.WindowIsStable` | include/framework/structure/MutableBuffer.h:71-105 | no action changes what an outstanding window of a job reads |
| `EpochRuns.FlushWindowIsStable` | include/framework/structure/MutableBuffer.h:71-105 | nor what the window of a flush reads |
| `EpochRuns.HeadLoopEnds` | include/framework/structure/MutableBuffer.h:204-232 | the head of every pinnable epoch is one of the two heads, so the endless loop of the comment cannot occur; at worst one store is awaited |
| `EpochRuns.ReleaseLoopEnds` | include/framework/structure/MutableBuffer.h:298-330 | a held window can always be given back, at worst after that store |
| `EpochHistory.AppendTells` | include/framework/structure/MutableBuffer.h:71-105 | an append with fewer entries behind the head than the high watermark adds one entry with its record and kind, untagged, visible and stamped with its slot, to the history and that slot; otherwise it changes nothing |
| `EpochHistory.LogIsAccepted` | include/framework/structure/MutableBuffer.h:71-105 | over all runs the history is exactly the accepted operations, entry by entry, and its net counts are accepted inserts minus accepted tombstones, counted on the actions |
| `EpochHistory.JobPinsCurrent` | include/framework/DynamicExtension.h:476-513 | a new job gets the current epoch, while there is none the previous one, and nothing only while both slots are empty |
| `EpochHistory.WindowReachesEnd` | include/framework/structure/MutableBuffer.h:146-153 | a pinned job without a window gets one, unless a swapped head is still in hand; it reaches from the head of its epoch to the end of the history |
| `EpochHistory.FlushWindowReachesEnd` | include/framework/structure/MutableBuffer.h:146-153 | so does the window of a flush |
| `EpochHistory.JobSeesAccepted` | include/framework/scheduling/Epoch.h:63-84 | over all runs: a job that takes a window and keeps it sees, whatever happens later, exactly the net counts of the operations accepted before it took it |
| `EpochHistory.ChecksIff` | include/framework/structure/MutableBuffer.h:119-123 | a caller passes the watermark check if and only if the accepted operations outnumber those before the head, which the current structure counts, by at least the low watermark |
| `EpochHistory.FlagsIff` | include/framework/DynamicExtension.h:791-805 | the flag is set if and only if it is not set and the caller has passed the check since it last tried |
| `EpochHistory.CheckedFoundLow` | include/framework/DynamicExtension.h:791-805 | over all runs, whoever may set the flag found the watermark reached at some point of the run, in terms of the operations accepted until then |
| `EpochCycles.FullCycle` | include/framework/DynamicExtension.h:618-676 | what a whole reconstruction leaves when nobody is in its way: everything up to the tail flushed, epoch and head moved one step back |
| `EpochWaits.RetireSucceedsIff` | include/framework/DynamicExtension.h:572-616 | while a reconstruction waits for the previous epoch, under every interleaving of other threads its count never rises, and an attempt succeeds if and only if nobody holds it |
| `EpochWaits.RetireWaitEnds` | include/framework/DynamicExtension.h:572-616 | that wait ends once the jobs that held the epoch when it began have ended, whatever else happened |
| `EpochWaits.HeadWaitEnds` | include/framework/DynamicExtension.h:527-537 | likewise the wait for the windows on the old head |
| `StaleCheck.AdvancesIffWindow` | include/framework/structure/MutableBuffer.h:169-172 | over all runs: the assertion before the head moves holds if and only if the window of this flush is not empty |
| `StaleCheck.FlagSafeIff` | include/framework/DynamicExtension.h:791-805 | it holds on every continuation if and only if the buffer holds a record when the flag is set |
| `EpochExamples.StaleCheckBreaks` | include/framework/DynamicExtension.h:791-805 | a run from the start that breaks it: two callers pass the check, one runs a whole cycle, the other then sets the flag |
| `EpochExamples.WholeRingWindow` | include/framework/structure/BufferView.h:119-136 | a reachable window that fills the whole ring from a slot other than the first |
| `EpochStructures.FlushAssertionHolds` | include/framework/structure/ExtensionStructure.h:137-153 | in every reachable concurrent state in which a flush is due, the window is at most a buffer long and the assertion before the flush holds, although the plan was made before the window was taken |
| `EpochStructures.PlanKeepsWhole` | include/framework/DynamicExtension.h:618-639 | running the plan of an epoch's structure is an enabled merge of the protocol |
| `EpochStructures.FlushKeepsWhole` | include/framework/DynamicExtension.h:641-658 | flushing the window into level 0 is an enabled flush of the protocol |
| `EpochStructures.ShardsAndBufferCount` | include/framework/DynamicExtension.h:515-570 | for every epoch that a job can hold, the shards of its levels and the buffer from its head on count every accepted operation exactly once |
| `EpochStructures.JobScansShards` | include/framework/structure/RangeScanIterator.h:56-96 | a job's scan over its window and its epoch's shards is the scan of the history up to the end of its window |
| `EpochStructures.LogIsMoves` | include/framework/DynamicExtension.h:515-570 | over all runs with structures, the history is exactly the accepted operations |
| `EpochStructures.JobScansAccepted` | include/framework/structure/RangeScanIterator.h:56-96 | over all such runs: the scan of a job that keeps its window is, whatever reconstructions come later, the scan of the operations accepted before it took the window |
| `MutableBuffers.ViewReadsHistory` | include/framework/structure/MutableBuffer.h:146-153 | a window whose slots agree with the history reads as that stretch of it |
| `RingBuffers.MutableBuffer.constructor` | include/framework/structure/MutableBuffer.h:47-62 | a new buffer of the given capacity, or twice the high watermark, with the old head parked there; the conditions are those asserted |
| `RingBuffers.MutableBuffer.TryAdvanceTail` | include/framework/structure/MutableBuffer.h:272-296 | for every interference of other appends: refused if and only if the buffer is full at the first load, or a swap is lost and the tail then read is at or above the high watermark; a granted position never overfills the buffer |
| `RingBuffers.PastTheMark` | include/framework/structure/MutableBuffer.h:283-290 | once the tail has passed the high watermark, an append that finds room is refused if and only if it loses its first swap |
| `RingBuffers.RefusedWithRoom` | include/framework/structure/MutableBuffer.h:283-290 | in every such reachable state with room for two, one append by another thread makes this one fail |
| `RingBuffers.MutableBuffer.AppendRecord` | include/framework/structure/MutableBuffer.h:71-105 | a refused append writes nothing; a granted one writes its record and kind, untagged, visible and stamped, into its slot and no other; undisturbed it is the append step of the protocol |
| `RingBuffers.MutableBuffer.TryGetHead` | include/framework/structure/MutableBuffer.h:208-232 | one iteration is the acquire step of the protocol |
| `RingBuffers.MutableBuffer.TryReleaseHead` | include/framework/structure/MutableBuffer.h:298-330 | one iteration is the release step of the protocol |
| `RingBuffers.MutableBuffer.AdvanceHead` | include/framework/structure/MutableBuffer.h:169-202 | the head moves and the old one is kept, if and only if the one before it is unused |
| `RingBuffers.BufferView.Get` | include/framework/structure/BufferView.h:115-155 | the i-th entry of the window, found by comparison instead of division |
| `RingBuffers.BufferView.CopyToBuffer` | include/framework/structure/BufferView.h:119-136 | copies exactly the window, if and only if it is shorter than the ring or starts at slot 0; otherwise the copy would run past the ring |
| `RingBuffers.FlushCopies` | include/util/SortedMerge.h:98-103 | in every reachable state the window that a flush copies is shorter than the ring |
| `DynamicExtensions.DynamicExtension.constructor` | include/framework/DynamicExtension.h:84-102 | the initial state: one epoch, empty buffer, no reconstruction |
| `DynamicExtensions.DynamicExtension.TryPin` | include/framework/DynamicExtension.h:476-513 | one iteration pins the current epoch, or the previous one while the current slot is empty |
| `DynamicExtensions.DynamicExtension.TryUnpin` | include/framework/DynamicExtension.h:841-888 | one iteration gives the pin back, without looking at the slot again in the second branch |
| `DynamicExtensions.DynamicExtension.Interleave` | include/framework/DynamicExtension.h:476-513 | any next action of another thread is a step of the protocol and keeps the invariant |
| `DynamicExtensions.DynamicExtension.RetireEpoch` | include/framework/DynamicExtension.h:572-616 | the waiting loop, with other threads acting in between: it ends within n of their actions if these end every job that held the epoch at its beginning; afterwards the windows on the old head are old ones or of such jobs |
| `DynamicExtensions.DynamicExtension.AdvanceBufferHead` | include/framework/DynamicExtension.h:534-537 | likewise for the loop that moves the head |
| `DynamicExtensions.DynamicExtension.AdvanceEpoch` | include/framework/DynamicExtension.h:515-549 | retire, demote, move the head and install, in the order of the code and with both waits, is a run of the protocol; it completes if the flush took something and, for some n, the first n actions of other threads end the jobs on the previous epoch and the later ones release their windows and those on the old head; with nothing flushed it never completes |
| `StructureExecutor.FindReconstructionTarget` | include/framework/structure/ExtensionStructure.h:676-699 | the first level below level 0 that can take its records, or -1; `PlannerLaws` says what taking them means |
| `StructureExecutor.PlanCascade` | include/framework/structure/ExtensionStructure.h:458-496 | the loop over the scratch state yields the cascade of moves, deepest first |
| `StructureExecutor.PlanFlatten` | include/framework/structure/ExtensionStructure.h:427-452 | the Bentley-Saxe loop yields one task over all levels above its target |
| `StructureExecutor.ExtensionStructure.GetReconstructionTasks` | include/framework/structure/ExtensionStructure.h:344-425 | the tasks are the plan that the laws and `PlannerLaws.PlanLaw` are about |
| `StructureExecutor.ExtensionStructure.ReconstructLevels` | include/framework/structure/ExtensionStructure.h:546-602 | one tiering or leveling task on the level objects, moved, replaced or appended to in place |
| `StructureExecutor.ExtensionStructure.ReconstructTask` | include/framework/structure/ExtensionStructure.h:499-538 | one Bentley-Saxe task on the level objects |
| `StructureExecutor.ExtensionStructure.FlushBuffer` | include/framework/structure/ExtensionStructure.h:137-153 | the flush into the level object 0, under the assertion of the code |
| `StructureExecutor.ExtensionStructure.ReconstructAndFlush` | include/framework/DynamicExtension.h:618-658 | for all layouts: plan, reconstruct and flush keep the structure sound, meet the flush's assertion and add exactly the batch |
| `StructureExecutor.ExtensionStructure.Copy` | include/framework/structure/ExtensionStructure.h:87-101 | a copy with level objects of its own, equal up to shards that wait for a slot |
| `StructureExecutor.ExtensionStructure.RestructureCopy` | include/framework/structure/ExtensionStructure.h:72-101 | a whole cycle on a copy changes no object that existed before, so the original keeps its levels and shards |
| `InternalLevels.InternalLevel.GetShards` | include/framework/structure/InternalLevel.h:104-109 | collecting the non-empty slots yields exactly the level's shards, in order |
| `InternalLevels.InternalLevel.AppendAndFinalize` | include/framework/structure/InternalLevel.h:94-166 | appending a merged level and finalizing is one step of the structure |
| `InternalLevels.InternalLevel.AppendFlushed` | include/framework/structure/InternalLevel.h:140-151 | a flushed shard takes the next slot, or is left pending when there is none |
| `InternalLevels.InternalLevel.Promote` | include/framework/structure/InternalLevel.h:153-166 | a pending shard replaces all others |
| `InternalLevels.InternalLevel.Clone` | include/framework/structure/InternalLevel.h:331-342 | a copy with the same shards, without the pending one |
| `PlannerRuns.PlanMakesRoom` | include/framework/structure/ExtensionStructure.h:344-602 | executing the planned tasks in order makes the flush's assertion true for all three layouts; real shard counts equal the simulated ones, real record counts are at most those; no task reads through a null shard; nothing is pending |
| `PlannerLaws.PlanLaw` | include/framework/structure/ExtensionStructure.h:344-425 | after any run of flush cycles, in record counts and capacities: under leveling nothing is planned if and only if level 0 is missing or takes a full buffer, and otherwise levels base-1, ..., 0 move down, base being the first level that takes the records of level 0, or a new one; the same for tiering by shard counts, and for Bentley-Saxe by vacancy |
| `StructureRuns.FlushAdds` | include/framework/structure/ExtensionStructure.h:701-742 | a flush into a structure with room keeps it sound and adds exactly the batch |
| `StructureLaws.GrownIsSound` | include/framework/structure/ExtensionStructure.h:499-602 | after any run of flush cycles the shards tile the flushes by age, each shard has exactly the net counts of the flushes it stems from, and all together count every flushed record exactly once |
| `StructureLaws.EveryFlushHasRoom` | include/framework/structure/ExtensionStructure.h:137-153 | in every cycle of every run the tasks are safe, the scratch state foresees the real one, the flush has room and no shard is left pending |
| `ShardHistory.PlanTold` | include/framework/structure/ExtensionStructure.h:499-602 | each planned task, for all layouts, merges neighbours in age: if every shard holds the flushes it stems from, so does every shard after each task |
| `ShardHistory.StuckCancels` | include/framework/structure/ExtensionStructure.h:499-602 | where a planned merge meets or leaves a shard without records, some consecutive flushes cancel each other out |
| `StructureLaws.TieringLaw` | include/framework/structure/ExtensionStructure.h:344-497 | tiering: the shard counts are the bijective base-B numeral of the number of flushes, every shard on level i has the net counts of B^i consecutive flushes, and no level exceeds its record capacity although the planner never looks at it |
| `Numerals.NumeralIsTheOne` | include/framework/structure/ExtensionStructure.h:676-699 | that numeral has digits 1..B and value n, and no other such numeral has; so n determines the height |
| `StructureLaws.BentleySaxeLaw` | include/framework/structure/ExtensionStructure.h:427-452 | Bentley-Saxe: after n flushes level 0 holds the last one, and level i exists and is occupied if and only if (n-1) / 2^(i-1) is odd, then by one shard with the net counts of 2^(i-1) consecutive flushes |
| `PendingShard.FlushVisibleIff` | include/framework/structure/InternalLevel.h:140-151 | a flushed batch becomes visible if and only if level 0 has a free slot; otherwise it is pending and no query sees it |
| `PendingShard.BatchVisibleIff` | include/framework/structure/ExtensionStructure.h:701-742 | over all Bentley-Saxe runs, empty shards or not: a batch becomes visible if and only if, before its cycle, level 0 is absent, holds a record or has a free slot; otherwise queries see what they saw before |
| `PendingShard.QueriesSeeShown` | include/framework/structure/ExtensionStructure.h:701-742 | after every such run queries see exactly the batches that became visible |
| `PendingShard.EmptyShardHidesBatch` | include/framework/structure/ExtensionStructure.h:789-792 | three ordinary flushes under the Bentley-Saxe layout, the second one cancelling to an empty shard, after which the third batch is invisible |
| `ShardBuilding.ShardOfBatch` | include/shard/ExternalISAMTree.h:113-143 | the shard of a batch is what the structure laws ask of a flush |
| `ShardBuilding.ShardOfShards` | include/shard/ExternalISAMTree.h:145-177 | the merge of non-empty shards is what the structure laws ask of a reconstruction |
| `TreeExecutor.TreeStructure.Flush` | include/framework/DynamicExtension.h:618-658 | plans, builds the external tree of every task and of the batch, and leaves the structure of the laws grown by one cycle with this batch; it succeeds unless some consecutive flushes, this one included, cancel each other out, and failing changes neither structure nor history |
| `TreeExecutor.TreeStructure.MergeShards` | include/framework/structure/InternalLevel.h:52-121 | succeeds if and only if every input has records; the shard is then built from the trees of its inputs and meets what the laws ask |
| `TreeExecutor.TreeStructure.Scan` | include/framework/structure/RangeScanIterator.h:56-158 | a scan over the buffer and the real trees answers for the whole history |
| `MergeBag.CancellingKeepsNet` | include/shard/ExternalISAMTree.h:527-553 | if everything untagged is written or cancelled in pairs, net counts stay |
| `MergeBag.CancellingCounts` | include/shard/ExternalISAMTree.h:575-576 | lengths and tombstones differ by exactly the cancelled pairs |
| `MergeBag.SinglePairGoes` | include/shard/ExternalISAMTree.h:527-553 | of a record with a single insert or a single tombstone and some of the other kind, exactly one pair goes |
| `ExternalMerge.MergeRuns` | include/shard/ExternalISAMTree.h:471-583 | the merge ends with sorted output, which is the input without the cancelled pairs, full pages but for the last, and counters off by exactly two records and one tombstone per pair; whatever equal entry the heap shows, a record loses a pair if and only if the runs have both an insert and a tombstone of it |
| `ExternalISAMTrees.CreateSortedRuns` | include/shard/ExternalISAMTree.h:417-464 | the runs are sorted and together a permutation of the buffer |
| `ExternalISAMTrees.ISAMTree.ExternalMergeSort` | include/shard/ExternalISAMTree.h:471-583 | record j is on page j/LEAF_FANOUT+1 in slot j%LEAF_FANOUT, the last data page is the rounded-up quotient, the record count is what was written; it falls if and only if some record has both kinds, and each such record loses as many inserts as tombstones |
| `ExternalISAMTrees.ISAMTree.constructor` | include/shard/ExternalISAMTree.h:113-143 | a valid tree of the buffer without cancelled pairs, at least one for every record with both kinds, with its net counts if nothing is tagged |
| `ExternalISAMTrees.ISAMTree.FromShards` | include/shard/ExternalISAMTree.h:145-177 | the same for all shards together, with an exact tombstone count if theirs were |
| `ExternalISAMTrees.ISAMTree.BuildInternalLevels` | include/shard/ExternalISAMTree.h:585-639 | the recursion ends, appends pages only, and leaves a root over all data pages |
| `ExternalIndex.SeparatorIsMax` | include/shard/ExternalISAMTree.h:610-626 | every separator is the greatest key of the data pages below it |
| `ExternalIndex.DescendKeepsTarget` | include/shard/ExternalISAMTree.h:260-273 | the chosen child covers the page where a linear search stops |
| `ExternalISAMTrees.ISAMTree.Descend` | include/shard/ExternalISAMTree.h:254-274 | the descent ends at exactly that page |
| `ExternalSearch.TargetIsBound` | include/shard/ExternalISAMTree.h:281-293 | the page and the slot where its scan stops, blanks included, are the lower bound |
| `ExternalSearch.OffsetDecodes` | include/shard/ExternalISAMTree.h:370-374 | the byte offset decodes to the record number, also past the last slot of a page |
| `ExternalISAMTrees.ISAMTree.GetLowerBound` | include/shard/ExternalISAMTree.h:249-294 | the offset of the first record with a key of at least the given one, duplicates across pages and keys past the end included |
| `ExternalISAMTrees.ISAMTree.GetIterator` | include/shard/ExternalISAMTree.h:366-375 | enumerates exactly the records that a linear scan finds at or above the key |
| `ExternalISAMTrees.Iterator.GetCurrent` | include/shard/ExternalISAMTree.h:84-99 | the next record through the one cached page, or nothing at the end |
| `SortedMerge.SortedViewIsTheOne` | include/util/SortedMerge.h:103-105 | sorting by record and header has one outcome, so the array built from a buffer is determined |
| `SortedMerge.PassByPosition` | include/util/SortedMerge.h:112-137 | from a sorted buffer the pass takes exactly the entries that are in no adjacent pair of an insert and its tombstone, in order |
| `SortedMerge.SortedArrayFromBufferView` | include/util/SortedMerge.h:88-141 | sorted, nothing tagged, exact counts; no net count falls, and that of a record with one kind of delete stays; all stay if and only if in the sorted view no insert right before its tombstone is tagged and every tagged tombstone has such an insert; without tombstones exactly the untagged records |
| `MergeQueue.SinglePairMeetsIff` | include/util/SortedMerge.h:174-190 | a single insert and a single tombstone of a record cancel if and only if they come from different arrays and the insert is first in the order of the queue |
| `SortedMerge.SortedArrayMerge` | include/util/SortedMerge.h:151-211 | the same for a merge of non-empty sorted arrays, the last condition in terms of what was taken and what was cancelled; a record loses a pair if it has both kinds, no array has both and its inserts are first in the queue, and none if all its entries are in one array or its tombstones are first |
| `SortedMerge.TagsIff` | include/util/SortedMerge.h:112-137 | by how much each net count changes where tags and tombstones meet |
| `SortedMerge.TaggedInsertTakesTombstone` | include/util/SortedMerge.h:113-116 | an insert, a tagged insert and a tombstone of one record: the pass cancels the last two, and the insert that was erased stays |
| `SortedMerge.PairStays` | include/util/SortedMerge.h:111-116 | of two inserts and two tombstones of one record the pass keeps a pair |
| `SortedMerge.Build` | include/util/SortedMerge.h:88-211 | for any tree of merges over buffers: sorted, nothing tagged, exact counts and the net counts of all its operations; it yields an array if every part below a merge has a record of non-zero net count, and without tombstones only then |
| `IsamTrees.SizeNodes` | include/shard/ISAMTree.h:205-212 | the sizing loop adds up the levels |
| `IsamTrees.BuildInternalLevels` | include/shard/ISAMTree.h:200-271 | the build writes exactly the nodes that the sizing loop allocated and leaves one root; separators of full subtrees are their greatest keys |
| `IsamGeometry.StepDown` | include/shard/ISAMTree.h:143-158 | one step down keeps the bound within the chosen subtree, whatever the junk separators of partial nodes say |
| `IsamTrees.ISAMTree.GetLowerBound` | include/shard/ISAMTree.h:140-165 | equals linear search, looking at the records of one leaf |
| `IsamTrees.ISAMTree.GetUpperBound` | include/shard/ISAMTree.h:167-192 | equals linear search, looking at the records of one leaf |
| `IsamTrees.ISAMTree.constructor` | include/shard/ISAMTree.h:52-69 | a valid shard; it has the buffer's net counts if and only if tags and tombstones do not meet as above |
| `IsamTrees.ISAMTree.FromShards` | include/shard/ISAMTree.h:71-93 | a valid shard with what survives of the merged arrays |
| `RangeScan.RangeScanIterator.constructor` | include/framework/structure/RangeScanIterator.h:56-96 | opens the scan: the entries still to come are those in range |
| `RangeScan.RangeScanIterator.Refill` | include/framework/structure/RangeScanIterator.h:112-127 | moves the next entry of a source into the heap, if it has one in range |
| `RangeScan.RangeScanIterator.Advance` | include/framework/structure/RangeScanIterator.h:129-158 | up to the record it stops at, the answer is complete; beyond it nothing is touched |
| `RangeScan.RangeScanIterator.Next` | include/framework/structure/RangeScanIterator.h:100-109 | returns the answer one record at a time |
| `RangeScan.Collect` | include/framework/structure/RangeScanIterator.h:56-158 | a scan ends, with every record in range, sorted, exactly max(0, net) times |
| `ScanOrder.ScanDependsOnNet` | include/framework/structure/RangeScanIterator.h:129-158 | the same net counts give the same sequence |
| `ScanRuns.ScanSeesHistory` | include/framework/structure/RangeScanIterator.h:56-96 | after any run of flush cycles, an answer over buffer and shards is an answer over the whole history, and conversely |
| `ScanRuns.CycleKeepsScan` | include/framework/structure/ExtensionStructure.h:546-602 | scanned before a cycle, between its merges and its flush, and after it: three times the same answer |
| `ScanRuns.JobScanSeesAPrefix` | include/framework/structure/RangeScanIterator.h:56-69 | under concurrency, a job's answer is the answer over the history up to the end of its window |
| `ScanRuns.JobScanSeesAccepted` | include/framework/structure/RangeScanIterator.h:56-69 | over all runs, it is the answer over the operations accepted before the job took its window |
| `VPTrees.VPTree.Partition` | include/shard/VPTree.h:312-331 | for every random pivot: a permutation of the range, smaller distances before the pivot, the others after it |
| `VPTrees.VPTree.QuickSelect` | include/shard/VPTree.h:298-308 | the k-th distance at position k, none larger before and none smaller after it, nothing outside the range touched |
| `VPTrees.VPTree.BuildSubtree` | include/shard/VPTree.h:240-296 | terminates for all random choices, only permutes its range, and leaves the inside within the radius and the outside beyond it at every node |
| `VPTrees.CoversOnce` | include/shard/VPTree.h:240-296 | the nodes of a built tree cover every index exactly once |
| `VPTrees.VPTree.InternalSearch` | include/shard/VPTree.h:339-391 | afterwards the candidates are the k nearest of what was seen before and of every point of the subtree, visited or pruned |
| `VPTrees.VPTree.Search` | include/shard/VPTree.h:186-191 | the min(k, n) nearest points of the tree, for every metric, query point and k |
| `Nearest.SameDistances` | include/query/knn.h:128-153 | any two choices of the k nearest have the same distances, rank by rank |
| `Nearest.DecomposeAll` | include/query/knn.h:128-153 | choosing from the choices of all parts is choosing from the whole |
| `Nearest.LiveByPosition` | include/query/knn.h:89-105 | the records considered in the buffer are those of its untagged entries, in order |
| `Knn.LocalQueryBuffer` | include/query/knn.h:89-126 | the k nearest untagged records of the buffer |
| `Knn.Combine` | include/query/knn.h:128-153 | the k nearest of all local results, farthest first |
| `Knn.Query` | include/query/knn.h:69-153 | buffer and shards together give the k nearest of all records |
| `WriteAheadLogs.WriteAheadLogger.Append` | include/framework/structure/WriteAheadLogger.h:50-58 | one entry at the end |
| `WriteAheadLogs.WriteAheadLogger.Remove` | include/framework/structure/WriteAheadLogger.h:60-68 | one delete entry at the end |
| `WriteAheadLogs.WriteAheadLogger.MarkBegin` | include/framework/structure/WriteAheadLogger.h:70-78 | one begin marker at the end |
| `WriteAheadLogs.WriteAheadLogger.MarkComplete` | include/framework/structure/WriteAheadLogger.h:80-107 | the file becomes what follows its first begin marker, without markers, and the sequence number its length |
| `WriteAheadLogs.KeptSinceBegin` | include/framework/structure/WriteAheadLogger.h:89-102 | that is what was logged since the matching begin, if and only if no entry stands behind an earlier begin marker |
| `WriteAheadLogs.StaleMarkerKeepsFlushed` | include/framework/structure/WriteAheadLogger.h:93-99 | a marker left by an interrupted flush makes the next flush keep an entry that it flushed |
| `WriteAheadLogs.LogLaw` | include/framework/structure/WriteAheadLogger.h:50-107 | for every interleaving with flushes in turn, what the file holds at every point |
| `WriteAheadLogs.CompletedLog` | include/framework/structure/WriteAheadLogger.h:80-107 | after a flush completes, the file is exactly what was logged since it began |
| `WriteAheadLogs.ReplayReads` | include/framework/structure/WriteAheadLogger.h:121-142 | by positions: replay yields exactly the inserts whose record no delete entry of the log names, before or after, in order |
| `WriteAheadLogs.BuildBufferFromLog` | include/framework/structure/WriteAheadLogger.h:109-143 | replay yields the logged inserts and tombstones in order, except of records deleted by tag, and as far as the buffer has room |
| `Durability.NothingIsLost` | include/framework/structure/ExtensionStructure.h:137-153 | at every crash point of every serial run, after any earlier crashes: the log's operations fit the buffer, and checkpoint and log together hold every promised operation, and beyond those exactly the doubled batches |
| `Durability.PromisedIsLetIn` | include/framework/structure/MutableBuffer.h:71-105 | what was promised is exactly what was let in, in order, whatever crashed in between |
| `Durability.RecoveredNet` | include/framework/structure/MutableBuffer.h:169-202 | recovery gives the promised net counts, plus once more each batch that a crash hit between its checkpoint and the truncation of the log |
| `Durability.RecoveryExactIff` | include/framework/structure/WriteAheadLogger.h:80-143 | recovery is exact if and only if the batches so hit cancel themselves out |
| `Durability.OutsideNothingDoubles` | include/framework/structure/WriteAheadLogger.h:80-143 | crashes outside those windows double nothing |
| `Durability.OutsideIsExact` | include/framework/structure/WriteAheadLogger.h:80-143 | with every crash outside those windows, recovery outside them gives the promised net counts |
| `Durability.WindowDoubles` | include/framework/structure/MutableBuffer.h:169-202 | a concrete crash in the window after which one insert counts twice |
| `DurableStructures.SavesAreEnabled` | include/framework/structure/ExtensionStructure.h:137-153 | the checkpoints that reconstruction and flush save are those of the structure |
| `ConcurrentLog.LogAndCheckpoint` | include/framework/structure/WriteAheadLogger.h:50-107 | at every point of every run with operations arriving during flushes, after any crashes: the log brings back a stretch of the operations since the restart, the checkpoint counts those before its cut, and memory, and what a crash would leave, are the acknowledged operations less what crashes lost and plus what they brought back in excess |
| `ConcurrentLog.AckedIsLetIn` | include/framework/structure/MutableBuffer.h:71-105 | what was acknowledged is exactly what was let in, in order, whatever crashed in between |
| `ConcurrentLog.ExactIff` | include/framework/structure/MutableBuffer.h:169-202 | in every phase of every such run, a crash changes nothing if and only if the log has exactly the operations that the checkpoint lacks |
| `ConcurrentLog.CrashLaw` | include/framework/structure/MutableBuffer.h:182-198 | while the log is not being rewritten, a crash loses exactly the operations between checkpoint and log, or brings back exactly those in both and loses what then finds no room |
| `ConcurrentLog.CarefulRunsAreExact` | include/framework/structure/WriteAheadLogger.h:50-143 | if no operation is accepted between a window and its marker and no crash comes between a checkpoint and the end of the rewriting, memory and recovery always give the acknowledged net counts |
| `ConcurrentLog.FlushExactIff` | include/framework/structure/WriteAheadLogger.h:80-107 | over every run, crashes included, and every interleaving of one flush: afterwards a crash changes nothing if and only if, with a begin marker left over in the log, no entry was behind it, and without one, no operation was accepted between window and marker |
| `ConcurrentLog.LateOperationIsLost` | include/framework/structure/MutableBuffer.h:182-198 | a concrete run after which a crash forgets an acknowledged insert |
| `ConcurrentLog.StaleMarkerDoubles` | include/framework/structure/WriteAheadLogger.h:93-105 | a concrete run in which a marker left by one crash makes a later crash, with no flush under way, count an insert twice |

## What the model shows about the code

- A range scan's answer is fixed by the net counts, but cancellation in merges is not
  complete: of two inserts and two tombstones of one record, a pair stays
  (`SortedMerge.PairStays`). The external merge cancels a pair of every record that has one, the
  in-memory merge only pairs from different arrays (`MergeQueue.SinglePairMeetsIff`). The
  invariant is the net count, not the absence of pairs.
- A caller whose watermark check is out of date can schedule a flush of nothing, which the
  code asserts against (`EpochExamples.StaleCheckBreaks`); it does so exactly when the buffer
  is empty at the moment the flag is set.
- `BufferView::copy_to_buffer` is wrong for a window that fills the whole ring from a start
  other than slot 0. Such windows are reachable on the old head (`EpochExamples.WholeRingWindow`),
  but a flush never copies one.
- Under the Bentley-Saxe layout an empty shard in level 0 looks like room to the planner while
  it takes the only slot; the next batch becomes a pending shard that no query sees, and the
  copy for the next cycle drops it. The laws for that layout therefore ask for non-empty shards;
  without them queries see what `PendingShard.QueriesSeeShown` says.
- Under leveling, levels are moved together with their old number, so every non-empty level
  keeps number 0; that is why the assertion on level numbers holds.
- After a failed swap, `try_advance_tail` compares the absolute tail with the high watermark,
  so past the first lap every lost swap is a refusal, with room or without.
- The comment on `ExtensionStructure::copy` says that a copy shares its levels; the code clones
  them, and that is what keeps the original as it was.
- `find_reconstruction_target` compares every level with the record count of level 0.
- The begin marker is written after the flush, in `advance_head`. An operation logged between
  the window and the marker is dropped from the log although it is in no checkpoint
  (`ConcurrentLog.LateOperationIsLost`); serial runs have no such operation.
- A flush interrupted between its two markers leaves a begin marker in the log, and recovery
  does not remove it. In serial runs the next flush comes before the next operation, so the
  marker does no harm there; otherwise the next flush keeps log entries that it has flushed
  (`ConcurrentLog.StaleMarkerDoubles`).

## Left out

- StructureExecutor.ExtensionStructure.ReconstructLevels: takes the merged shard as a parameter; `TreeExecutor` builds it.
- StructureExecutor.ExtensionStructure.ReconstructTask: takes the merged shard as a parameter; `TreeExecutor` builds it.
- StructureExecutor.ExtensionStructure.FlushBuffer: takes the flushed and merged shards as parameters; `TreeExecutor` builds them.
- StructureExecutor.ExtensionStructure.ReconstructAndFlush: takes the shards of its cycle as parameters; `TreeExecutor` builds them.
- EpochProofs.StepKeepsInv: merges and flushes enter with their effect on net counts as a guard; `EpochStructures` discharges it from the planner and the executor.
- SortedMerge.Build: claims net counts for trees over buffers that do not mix tags and tombstones; for a single pass the condition is exact.
- Serial and concurrent runs with crashes are two models: only the serial one ties flushes to the low watermark.
- SortedMerge.SortedArrayMerge: which equal entry the queue shows is left open, so the exact condition for all net counts is on what was taken and cancelled, not on the inputs.
- TreeExecutor.TreeStructure.Flush: cancelling flushes need not make it fail; whether they do depends on what the merges cancel.
- Record capacities under leveling: the planner re-reads level 0's count, so only room in level 0 and net counts are decided by the code.
- Levels loaded from a checkpoint as the start of later flushes: they get a capacity equal to their shard count, so the planner laws range over structures grown by flushes.
- Files, JSON, identifiers, I/O errors, directories and renames: files are page arrays and checkpoints saved contents.
- Compaction tasks and the delete invariant, which the insert path never calls.
- `point_lookup` and the external tree's `get_upper_bound`.
- Range query, range count, sampling queries, learned indexes and tries.
- Tagged deletes on external shards, Bloom filters, memory accounting, statistics.
- Schedulers, thread pools and affinity: the protocol's runs already allow every order.
- Record counts stored with planned tasks, which only the statistics use.
