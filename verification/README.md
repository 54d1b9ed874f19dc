# Miare, verified

Miare keeps ordered keys and large Blobs in one encrypted or checksummed file, with
copy-on-write generations.  This project models the parts of it that must not go wrong
together (the block allocator, the commit and recovery protocol, the ordered tree, Blob
staging, range cursors, the writer lane and the page formats) and proves what they promise.

| files | part |
|---|---|
| `ExtentRuns`, `Partition`, `Retirement`, `CommitAllocation`, `MetadataReservation`, `CommitPlan`, `AllocatorLoading`, `StraddlingDiscard`, `OverlappingReservations` | the allocator, the block plan of a commit and what the next load makes of it |
| `SnapshotSafety`, `StagedWrites`, `DurableFile`, `Publication`, `CommitProtocol`, `CommitWriting`, `Store`, `SlotCode`, `Creation` | readers, crashes and reopening; `Store.Session` is the whole store over whole runs |
| `StagingRuns`, `BlobContent`, `BlobStaging`, `BlobTransaction`, `BlobReading`, `BlobView`, `MapSums` | Blob staging and streaming |
| `ByteOrder`, `SortedEntries`, `PageRanges`, `OrderedTree`, `TreeWriting`, `TreeLoading`, `TreeCommit`, `PageLayout`, `OrderedCommit` | the copy-on-write tree, from put and erase to commit and reload, and its share of a commit's blocks |
| `Cursor`, `PrefixRange`, `TransactionView` | range cursors and what keeps them valid |
| `WriterLane`, `LaneProgress` | the ticket lane |
| `LittleEndian`, `KeyPrefix`, `PageFormat`, `AllocatorCodec`, `OrderedCodec`, `InternalCodec`, `Blake2b` | bytes |

`dafny verify dfyconfig.toml` checks everything.  Lemmas carry `{:induction false}`: every
induction is written out.

## How things are stated

Blocks are judged by multiplicity.  `Mult(runs, b)` counts how many runs of a list cover
block `b`, and the unbounded end of the file counts as one more run, so "nothing is lost and
nothing is used twice" is the equation "the total is one", block by block.  Lists of the
source are `seq` values; `std::sort` is any method that returns a sorted permutation.

What the source leaves to foreign code is an arbitrary function: how many blocks a page takes
once compressed (`PageSizes`, `Layout`), opening and sealing of slots (`Opener`, `Sealing`),
content of extents, the BLAKE2b compression function, and which file operation fails after how
many bytes (`Faults`).  Theorems hold for all of them.  The hypotheses about them are these:
opening inverts sealing, for publications that a slot can hold (`Sealing`); a slot that is a
bytewise mixture of its old and its new content opens as one of the two or not at all
(`TearResistant`, asked of each publication when it is written); the loader reads nothing but blocks
reachable from the publication (`Loads`); a single entry, and any two children, fit a page
(`Fits`, which `PageLayout.FitsIff` reduces to the limits); and generation 1 is in both slots, as creation writes it (part of
`CommitProtocol.Opens`; later generations alternate by their own rules).  `SlotCode` has
functions that meet the first two, and `Creation.FirstCommit` creates a store with them and
commits to it.

## Where the code promises more than it keeps

* Discarded staged chunks. When a commit takes staging over, a discarded chunk that begins
  below the committed boundary is skipped as a whole, although staging may have cut it across
  the boundary from a free run that had been merged there.  Its upper blocks end up in no list.
  `CommitPlan.PartitionIff` gives the exact condition, `StraddlingDiscard.LostBlocks` a case.
* Metadata reservations. The growth branches allocate from runs that already contain unused
  parts of earlier reservations, so reservations can overlap and the loop still converges.
  `MetadataReservation.DisjointIffClear` gives the exact condition at the allocation that
  fails, `OverlappingReservations.Overlap` a run of the loop, and
  `AllocatorLoading.CommitAndLoad` what both of these mean for the next load.
* Internal pages. The ordered loader does not compare the length of an internal entry with
  that of its key suffix and reference, as the allocator's loader does, so such a page may
  carry bytes that nobody reads.  `InternalCodec.DecodeInner` says exactly what is accepted,
  `InternalCodec.WrittenIffTight` when it is what writing gives, `InternalCodec.AcceptsSlack` has
  a page; leaf pages and allocator leaves have no such slack.
* The writer lane. A maintenance task whose turn comes while corruption is pending leaves
  without passing its turn on, and the lane admits nobody as long as the session stays open.
  `WriterLane.OrderLostIff` and `WriterLane.InOrderIffNoneRefused` say that this is the only way
  to lose the order, `WriterLane.StallLasts` that it lasts, `WriterLane.PendingStalls` has a run.
* Prefixes of separators. The encoder asks for more bytes of a separator than it has when the
  prefix so far is longer (`InternalCodec.Overreaches`, `InternalCodec.ShorterSeparator`).
  `InternalCodec.DiffersInside` says that the result does not depend on them.

## Model

| member | source | states |
|---|---|---|
| `ExtentRuns.Coalesce` | include/miare/detail/exact_store.hpp:3612-3625 | sorting and merging neighbours covers every block as often as before; disjoint runs come out ascending with gaps |
| `ExtentRuns.RemoveRange` | include/miare/detail/exact_store.hpp:4082-4100 | exactly the blocks of the range are gone, all others are covered as often as before |
| `ExtentRuns.CoalescesOnce` | include/miare/detail/exact_store.hpp:4054-4073 | runs with distinct starts have one coalesced form, whatever order the sort leaves ties in |
| `ExtentRuns.AllocateBlocks` | include/miare/detail/exact_store.hpp:3688-3701 | free list and unbounded tail together lose exactly the allocated blocks; the first run that fits is used, the tail only if none fits (`FitIndex`) |
| `Partition.ValidatePartition` | include/miare/detail/exact_store.hpp:1505-1550 | the sort and sweep accepts if and only if every range is non-empty and in bounds and every block of the committed range lies in exactly one |
| `Partition.CountersAddUp` | include/miare/detail/exact_store.hpp:1758-1772 | for a partition, the three block counts add up to the size of the committed range |
| `Retirement.CoalesceRetained` | include/miare/detail/exact_store.hpp:1571-1585 | sorting and merging retained runs gives gapped runs with the same union |
| `Retirement.SubtractFromRun` | include/miare/detail/exact_store.hpp:1595-1627 | the pieces are exactly the blocks of one retired run outside the retained runs, and the scan position is right for the next run |
| `Retirement.SubtractRetained` | include/miare/detail/exact_store.hpp:1552-1638 | for every block and generation the result is the set difference; sorted by generation and start, disjoint, non-empty, and no two touching runs unless the input had some |
| `CommitAllocation.EligibleMonotone` | include/miare/detail/exact_store.hpp:3604-3611 | raising the oldest reader only makes more retired blocks eligible |
| `CommitAllocation.EligibleMembers` | include/miare/detail/exact_store.hpp:3604-3611 | a retired run is eligible if and only if it was retired no later than the oldest reader, and held otherwise |
| `CommitAllocation.ClassifyRetired` | include/miare/detail/exact_store.hpp:3593-3625 | free runs and eligible retired runs together; the rest is held |
| `CommitAllocation.AbsorbStaging` | include/miare/detail/exact_store.hpp:3626-3672 | the free blocks after staged chunks are taken out, block by block, exactly as the code computes them |
| `CommitAllocation.AbsorbBalance` | include/miare/detail/exact_store.hpp:3626-3672 | absorbing staging loses nothing but the upper parts of discarded chunks that straddle the committed boundary |
| `CommitAllocation.LostIffStraddles` | include/miare/detail/exact_store.hpp:3636-3641 | blocks are lost if and only if some discarded chunk straddles the boundary |
| `CommitAllocation.RetireReachable` | include/miare/detail/exact_store.hpp:3673-3687 | generation by generation: held runs keep theirs, the old extents retire at the new one |
| `MetadataReservation.GrownKeeps` | include/miare/detail/exact_store.hpp:4135-4147 | however many pages a round reserves, outside the reservations the pool is unchanged and inside every block came from it |
| `MetadataReservation.FinalFreeRuns` | include/miare/detail/exact_store.hpp:4148-4170 | free runs plus pages in place cover what the reservations and the free runs covered; ascending with gaps if the reservations are disjoint |
| `MetadataReservation.ReserveMetadata` | include/miare/detail/exact_store.hpp:4101-4200 | every run of the loop is a sequence of rounds that reserve, represent again or reserve after alternating; if it gives up, these rounds reached the limit or a page was larger than its reservation; a converged reservation is a fixed point whose index pages have the sizes that the free runs left beside them need, and every block of the pool is accounted for |
| `MetadataReservation.NoPagesConverges` | include/miare/detail/exact_store.hpp:4101-4200 | if the indexes need no page, the loop never gives up |
| `MetadataReservation.DisjointIffClear` | include/miare/detail/exact_store.hpp:4135-4181 | the reservations of a run of the loop are pairwise disjoint if and only if, whenever it reserved a page, the first blocks of the first run that fits held no block of an earlier reservation |
| `MetadataReservation.ConservesIffClear` | include/miare/detail/exact_store.hpp:4101-4200 | under exactly that condition a converged loop keeps every block of the pool exactly once |
| `OverlappingReservations.Overlap` | include/miare/detail/exact_store.hpp:4101-4200 | a run of the loop, with one leaf per index, that converges with two reserved pages sharing a block |
| `StraddlingDiscard.LostBlocks` | include/miare/detail/exact_store.hpp:3629-3641 | a discarded chunk cut across the committed boundary by the code's own steps, after which two blocks are in no list |
| `CommitPlan.OpenPool` | include/miare/detail/exact_store.hpp:3592-3672 | the pool a commit draws from: with what is staged and what is lost it is the free blocks, the eligible retired ones and the tail, block by block |
| `CommitPlan.ClosePlan` | include/miare/detail/exact_store.hpp:4029-4200 | from the extents taken from the pool to a plan that balances every block, retires exactly what it drops, writes nothing empty and keeps both indexes in order, with the root where it first fits; no plan only if the reservation loop gave up, and never if the indexes need no page |
| `CommitPlan.PlanCommit` | include/miare/detail/exact_store.hpp:3592-3701 | the plan of a commit balances every block over old and new lists, puts each extent and then the root where it first fits, retires exactly what it drops, writes no empty extent, keeps the retired index in canonical order and the free index with gaps, fits its own indexes, and has disjoint reservations exactly if all its rounds were clear; no plan only if the reservation loop gave up, from the pool and the retired runs of this commit |
| `CommitPlan.AlwaysPlannable` | include/miare/detail/exact_store.hpp:4101-4200 | if the indexes need no page there is always a plan |
| `CommitPlan.AllocateExtents` | include/miare/detail/exact_store.hpp:3688-3726 | one extent after another, each where it first fits in what the others have left; together they are exactly the blocks that leave the pool |
| `CommitPlan.TotalCover` | include/miare/detail/exact_store.hpp:3592-3701 | how often the new lists cover each block: once, plus overlaps of reservations, minus lost chunks |
| `CommitPlan.PartitionIff` | include/miare/detail/exact_store.hpp:4029-4312 | the new lists partition the new committed range if and only if the reservations are disjoint and no discarded chunk straddles the boundary |
| `CommitPlan.NextLoadIff` | include/miare/detail/exact_store.hpp:1505-1550 | for a planned commit, all that the next load checks (bounds, non-empty ranges, partition, order and gaps of both indexes, generations) holds if and only if the reservations are disjoint and no discarded chunk straddles the boundary |
| `AllocatorLoading.LoadAllocator` | include/miare/detail/exact_store.hpp:1711-1789 | loading accepts an allocator state if and only if it is valid and the stored counters are its sums |
| `AllocatorLoading.CommitAndLoad` | include/miare/detail/exact_store.hpp:4029-4312 | what a converged commit stores is accepted by the next load if and only if no index page was cut from the rest of another and no discarded chunk straddles the boundary; the plan itself is sound |
| `AllocatorLoading.IndexesCanonical` | include/miare/detail/exact_store.hpp:1318-1324 | both indexes of an accepted state are run lists that leaf pages hold and return unchanged |
| `CommitPlan.StoredCounters` | include/miare/detail/exact_store.hpp:4202-4312 | the three counters written to the allocator root sum to the size of the new range |
| `CommitPlan.WritesAreSafe` | include/miare/detail/exact_store.hpp:3592-3701 | a commit writes no block of the current generation, no held retired block and no pending chunk, whatever its metadata does |
| `CommitPlan.RetiredGens` | include/miare/detail/exact_store.hpp:1750-1757 | every retirement generation that is written is valid for the next load |
| `SnapshotSafety.StagingSpares` | include/miare/detail/exact_store.hpp:2724-2746 | staging never writes a block that a reader no older than the staging allocator can reach |
| `SnapshotSafety.CommitSpares` | include/miare/detail/exact_store.hpp:3593-3688 | nor does a commit, for every reader it respects |
| `SnapshotSafety.CommitProtects` | include/miare/detail/exact_store.hpp:3593-3688 | after a commit every block of such a reader is still reachable or retired by a later generation |
| `SnapshotSafety.EligibleAll` | include/miare/database.hpp:1575-1580 | with no reader older than the current generation all retired runs are eligible, so a reader that begins later makes no difference |
| `SnapshotSafety.PlanRespects` | include/miare/database.hpp:1575-1580 | a plan stays sound for readers that begin after it was made |
| `StagedWrites.OwnedMayStage` | include/miare/detail/exact_store.hpp:2690-2746 | whatever block the staging allocator owns, in any state of the transaction, it may write |
| `StagedWrites.StagingSparesReaders` | include/miare/detail/exact_store.hpp:2690-2746 | no staged chunk of any kind touches a block a reader can reach |
| `StagedWrites.NothingStaged` | include/miare/database.hpp:2236-2264 | a checkpoint commits with an empty staging state |
| `DurableFile.MemoryDurableFile.WriteExactAt` | include/miare/testing/fakes.hpp:343-372 | a write in bounded pieces, failing after any number of bytes; what is in the file and what is recorded |
| `DurableFile.MemoryDurableFile.SetLength` | include/miare/testing/fakes.hpp:374-394 | a resize takes effect and is recorded, or fails without effect |
| `DurableFile.MemoryDurableFile.Barrier` | include/miare/testing/fakes.hpp:396-414 | a barrier makes everything stable, or fails without effect |
| `DurableFile.MemoryDurableFile.SimulateCrash` | include/miare/testing/fakes.hpp:450-472 | any recorded mutations in any order over the stable bytes |
| `DurableFile.PerformedIsReplay` | include/miare/testing/fakes.hpp:343-372 | what readers see is the crash outcome that loses nothing |
| `DurableFile.ReplaySpares` | include/miare/testing/fakes.hpp:450-472 | a range that every mutation spares survives any crash |
| `DurableFile.ReplayMixes` | include/miare/testing/fakes.hpp:450-472 | a range that is being overwritten is, after any crash, a bytewise mixture of old and new |
| `Publication.SelectPublication` | include/miare/detail/database_format.hpp:866-943 | accepted if and only if some slot opens, all that open are valid for their place, two are the same or consecutive, and the file reaches the high-water mark; then the newest is returned |
| `CommitProtocol.OpensSelects` | include/miare/detail/database_format.hpp:907-935 | what selection returns is the publication the file holds, up to its slot |
| `CommitProtocol.SettledSurvives` | include/miare/detail/exact_store.hpp:4352-4359 | crash before the slot is touched: opening finds the whole old generation |
| `CommitProtocol.PublishingSurvives` | include/miare/detail/exact_store.hpp:4360-4364 | crash during publication: opening finds the whole old or the whole new generation |
| `CommitProtocol.ReplacedSlot` | include/miare/detail/exact_store.hpp:3475-3511 | the spared slot still names the old generation, so generations never contradict |
| `SlotCode.SealsAndOpens` | include/miare/detail/database_format.hpp:645-695 | there are sealing and opening functions of which opening inverts sealing, for every publication a slot can hold |
| `SlotCode.NeverTorn` | include/miare/detail/database_format.hpp:645-695 | with these, a slot torn between any two publications opens as one of them or not at all |
| `CommitWriting.WriteExtents` | include/miare/detail/exact_store.hpp:4354-4358 | extents go to their places and keep the old generation settled, wherever a fault stops them; it succeeds if and only if no write fails |
| `CommitWriting.LaidHolds` | include/miare/detail/exact_store.hpp:4354-4358 | extents that do not overlap are all in place at the end |
| `CommitWriting.CommitWrites` | include/miare/detail/exact_store.hpp:4340-4398 | which faults lead to which outcome, both ways; failure before publication leaves the old generation settled, a later failure leaves old or new, success settles the new one; committed blocks outside the extents keep their content |
| `Store.OldestReader` | include/miare/detail/exact_store.hpp:3593-3603 | the smallest reader generation, or the greatest number if there is no reader |
| `Creation.Create` | include/miare/detail/database_format.hpp:418-496 | a new store: both slots name generation 1, and a session over it is valid |
| `Creation.FirstCommit` | include/miare/detail/exact_store.hpp:4340-4398 | for every profile with room for one block, a store can be created and can commit its first transaction, so the hypotheses of the protocol can be met together |
| `Store.Session.constructor` | include/miare/database.hpp:2163-2178 | a session over a settled generation |
| `Store.Session.BeginRead` | include/miare/database.hpp:1545-1590 | a reader takes the current generation; the invariant is kept |
| `Store.Session.EndRead` | include/miare/database.hpp:2085-2105 | a reader leaves; the invariant is kept |
| `Store.Session.BeginStaging` | include/miare/detail/exact_store.hpp:2690-2746 | the staging pool: the free blocks and the runs retired no later than the oldest generation somebody reads, or the current one if nobody reads |
| `Store.Session.EndStaging` | include/miare/database.hpp:1022-1035 | a transaction that ends gives its staging up |
| `Store.Session.StageExtent` | include/miare/detail/exact_store.hpp:2849-2864 | a staged chunk is written without touching the current generation or any reader, whether or not it fails; it fails if and only if a write or a needed resize does |
| `Store.Session.PlanBlocks` | include/miare/detail/exact_store.hpp:3592-3701 | for the oldest generation in use, a plan that is sound for all readers, also later ones, with extents where they first fit and reservations disjoint exactly if its rounds were clear; or the reason why there is none |
| `Store.Session.Commit` | include/miare/detail/exact_store.hpp:4324-4398 | refused exactly if generations are exhausted or the file would be too large, and then nothing changes; otherwise the outcome follows from the faults, both ways, and each outcome has its state: open only if committed, in doubt only if unknown, with the generation and content that belong to it, every reader's blocks intact |
| `Store.Session.Reselect` | include/miare/database.hpp:2207-2234 | closing after a commit that failed before publication finds the current generation again, and may commit |
| `Store.Session.CrashAndReopen` | include/miare/detail/database_format.hpp:866-943 | after a crash at any moment the store reopens as the current generation or, if its publication was in doubt, as the next one, with exactly its content |
| `Store.CommitComposes` | include/miare/detail/exact_store.hpp:4340-4364 | the new generation's content: written extents in place, staged chunks and retained extents as they were |
| `StagingRuns.InsertFreeRun` | include/miare/detail/exact_store.hpp:2655-2687 | the union with the given run, ascending with gaps, at most one run more |
| `BlobContent.OpenExtent` | include/miare/detail/exact_store.hpp:1093-1253 | an extent opens as a given chunk to a content exactly if all its blocks hold that chunk with that content |
| `BlobContent.FinishStored` | include/miare/database.hpp:449-457 | with the last, shorter chunk staged, the chunks are those of the stream |
| `BlobContent.StoredConcatenates` | include/miare/database.hpp:449-457 | the chunks of a finished version concatenate to the stream |
| `BlobTransaction.BlobWriteState.constructor` | include/miare/detail/exact_store.hpp:2690-2746 | the initial split: free runs and eligible retired runs, nothing staged |
| `BlobTransaction.BlobWriteState.ReleaseOne` | include/miare/detail/exact_store.hpp:2749-2759 | a chunk given back joins the free runs without needing capacity |
| `BlobTransaction.BlobWriteState.ReleasePrepared` | include/miare/detail/exact_store.hpp:2761-2768 | all chunks of a failed write given back |
| `BlobTransaction.BlobWriteState.Prepare` | include/miare/detail/exact_store.hpp:2791-2839 | a chunk is taken where it first fits and written |
| `BlobTransaction.BlobWriteState.StageChunk` | include/miare/detail/exact_store.hpp:2770-2880 | a chunk is staged where it first fits, or a failure leaves the split as it was |
| `BlobTransaction.BlobWriteState.OpenWriter` | include/miare/database.hpp:816-875 | a writer with an empty stream |
| `BlobTransaction.BlobWriteState.Write` | include/miare/database.hpp:365-435 | the stream grows by the source if there is room and none of the chunks it fills fails, and only then; a failed write leaves it unchanged |
| `BlobTransaction.BlobWriteState.Finish` | include/miare/database.hpp:438-504 | the finished version stores exactly the stream; a replaced pending version is discarded |
| `BlobTransaction.BlobWriteState.Abort` | include/miare/database.hpp:507-526 | the chunks of the writer are free again, and nothing is allocated |
| `BlobTransaction.BlobWriteState.Erase` | include/miare/database.hpp:877-897 | a Blob with an open writer is refused, one that is not there is reported absent; a pending version is discarded, a committed one leaves the view |
| `BlobTransaction.StagingConserved` | include/miare/detail/exact_store.hpp:3626-3672 | with no writer open, the lists handed to the commit split the initial free runs and the tail, and no chunk is empty |
| `BlobReading.StoredOpens` | include/miare/detail/exact_store.hpp:2898-2920 | in a stored version every chunk opens to its part of the stream |
| `BlobReading.LoadChunk` | include/miare/detail/exact_store.hpp:2921-2962 | which outcome: too large beside what the other readers hold, unreadable, or loaded; the bytes of the others are never touched |
| `BlobReading.StoredLoads` | include/miare/detail/exact_store.hpp:2921-2962 | in a stored version a chunk loads if and only if it fits, and always if a whole chunk fits beside what the other readers hold |
| `BlobReading.ReadRange` | include/miare/detail/exact_store.hpp:2898-2976 | the bytes at the offsets, chunk by chunk, if every chunk that meets the range loads; else the first that does not decides how the read fails |
| `BlobReading.StoredBytes` | include/miare/detail/exact_store.hpp:2898-2976 | bytes read from a stored version are those of its stream |
| `BlobReading.BlobReaders.Open` | include/miare/database.hpp:651-660 | a reader at the start with nothing cached |
| `BlobReading.BlobReaders.Seek` | include/miare/database.hpp:223-231 | the position moves, or the seek is refused beyond the end |
| `BlobReading.BlobReaders.Read` | include/miare/database.hpp:195-220 | the bytes at the position, which advances only on success; it fails exactly as the first chunk does that does not load; from a stored version it returns the slice of the stream, and fails if and only if a chunk it needs does not fit beside what the other readers hold; cache usage stays the sum of the cached chunks and within capacity |
| `BlobReading.BlobReaders.Close` | include/miare/database.hpp:234-254 | a closed reader gives its cache back |
| `BlobView.ReaderSurvives` | include/miare/detail/exact_store.hpp:2898-2976 | between any two states of a write transaction, a reader over a finished version stays right: its cached chunk and all it will read |
| `BlobView.TransactionBlobs.OpenPending` | include/miare/database.hpp:804-813 | a reader over a version that the transaction itself has finished |
| `BlobView.TransactionBlobs.Read` | include/miare/database.hpp:195-220 | it returns the bytes that were written, whatever was staged, finished, aborted or erased in between, never finds corruption, and fails if and only if a chunk it needs does not fit the cache |
| `BlobView.TransactionBlobs.Write` | include/miare/database.hpp:365-435 | staging more, whether it succeeds or fails, leaves every open reader valid |
| `BlobView.TransactionBlobs.Finish` | include/miare/database.hpp:438-504 | so does finishing, also when it replaces the version being read |
| `BlobView.TransactionBlobs.Abort` | include/miare/database.hpp:507-526 | so does aborting |
| `BlobView.TransactionBlobs.Erase` | include/miare/database.hpp:877-897 | so does erasing, also the version being read |
| `PageRanges.SelectBoundary` | include/miare/detail/exact_store.hpp:3011-3024 | the most even split that fits, the first of several, none only if none fits |
| `PageRanges.BalancedPageRanges` | include/miare/detail/exact_store.hpp:2990-3033 | a contiguous cover by non-empty ranges that fit; never fails if every item fits alone; fewer ranges than items if the first two fit together; every page but the last ends at the most even split of the items that first overflowed it, and it fails only if such a split does not exist |
| `OrderedTree.ChildFor` | include/miare/detail/exact_store.hpp:2978-2988 | the child whose range holds the key |
| `OrderedTree.Put` | include/miare/detail/exact_store.hpp:3286-3320 | refines put on the sorted list; keeps depth, minimum keys and non-empty nodes; leaves clean only what is unchanged, and touches only the path of the key |
| `OrderedTree.Erase` | include/miare/detail/exact_store.hpp:3322-3358 | refines erase on the sorted list, says whether the key was there, touches only the path of the key, and changes nothing if it was not there |
| `TreeWriting.PageWriter.Prepare` | include/miare/detail/exact_store.hpp:3702-3726 | an extent where it first fits in the pool; what is put on a page fits a page; nothing on disk is disturbed |
| `TreeWriting.PageWriter.RetainSubtree` | include/miare/detail/exact_store.hpp:3758-3771 | every extent of a clean subtree is retained, once |
| `TreeWriting.PageWriter.StoreOverflows` | include/miare/detail/exact_store.hpp:3785-3797 | exactly the long values have overflow extents |
| `TreeWriting.PageWriter.StoreLeaves` | include/miare/detail/exact_store.hpp:3798-3813 | leaf pages that fit and hold the entries in order |
| `TreeWriting.PageWriter.BuildParents` | include/miare/detail/exact_store.hpp:3823-3840 | one level up: the same content in fewer nodes, on pages that fit |
| `TreeWriting.PageWriter.Persist` | include/miare/detail/exact_store.hpp:3772-3842 | a subtree becomes a row of stored nodes with the same content; what they refer to was written or retained, once each, and retained is exactly what the subtree has clean; for a clean subtree nothing is written |
| `TreeWriting.PageWriter.BuildRoot` | include/miare/detail/exact_store.hpp:3843-3862 | levels are added until one root is left, which has two children or more |
| `TreeLoading.LoadEntries` | include/miare/detail/exact_store.hpp:2039-2101 | entries are read if and only if the slots are well formed, sorted, and their overflow values are there |
| `TreeLoading.LoadPage` | include/miare/detail/exact_store.hpp:1967-2147 | the loader returns a tree if and only if the pages are one, and then exactly that tree |
| `TreeLoading.NodeUnique` | include/miare/detail/exact_store.hpp:1967-2147 | pages determine the tree |
| `TreeCommit.UpdateTree` | include/miare/detail/exact_store.hpp:3727-3757 | erases, puts, reset and collapse turn the old values into the new ones; keys that are gone are erased and keys that are new or changed are put, no others, each touching only its path |
| `TreeCommit.NotUpdated` | include/miare/detail/exact_store.hpp:3727-3757 | where nothing differs, a stored tree is left as it is |
| `TreeCommit.CommitTree` | include/miare/detail/exact_store.hpp:3727-3863 | the new root stores the new values; written and retained extents are exactly what it refers to; retained is exactly what the updated tree has clean, all of it of the old tree; if no value differs nothing is written and the root stays |
| `TreeCommit.CommitAndReload` | include/miare/detail/exact_store.hpp:2223-2242 | from the new root the loader returns exactly the new values, unless the tree is too deep for it |
| `OrderedCommit.CommitOrdered` | include/miare/detail/exact_store.hpp:3592-3863 | the tree and the plan together: pages that fit are written into the pool the plan is made from, the plan is sound, and the extents of the new tree are exactly the plan's and the retained ones, each once; what is retained is exactly what is clean |
| `OrderedCommit.FirstReady` | include/miare/detail/database_format.hpp:386-415 | the first ordered commit of a new store meets the hypotheses of such a commit |
| `OrderedCommit.ReachableIsTree` | include/miare/detail/exact_store.hpp:4292-4306 | every block reachable from the new generation is of the new tree, of a staged chunk or of the allocator, as often as they say |
| `OrderedCommit.CommitAndReopen` | include/miare/detail/exact_store.hpp:1711-1789 | the next opening accepts the allocator state if and only if the two conditions hold, and loads exactly the new values unless the tree is too deep |
| `PageLayout.FitsIff` | include/miare/detail/exact_store.hpp:3755-3848 | with the lengths the page formats compute, every entry and any two children fit a page if and only if the longest key with the longest inline value or a reference does |
| `PageLayout.DefaultsFit` | include/miare/types.hpp:421-432 | the default limits are such limits |
| `PageLayout.LeafEncodes` | include/miare/detail/exact_store.hpp:842-857 | entries that are measured to fit a leaf can be encoded |
| `PageLayout.InnerEncodes` | include/miare/detail/exact_store.hpp:1009-1029 | children that are measured to fit an internal page can be encoded |
| `TransactionView.BuildTree` | include/miare/detail/exact_store.hpp:3360-3425 | a shaped tree over the given values |
| `TransactionView.WriteView.constructor` | include/miare/database.hpp:1046-1066 | a view whose tree equals its values, with no mutation counted |
| `TransactionView.WriteView.Put` | include/miare/database.hpp:901-919 | the value is put, the mutation counted and every cursor retired, or the mutation limit stops it |
| `TransactionView.WriteView.Erase` | include/miare/database.hpp:923-937 | the key is erased, the mutation counted and every cursor retired; an absent key changes nothing |
| `TransactionView.WriteView.Scan` | include/miare/database.hpp:797-802 | a cursor over a tree that equals the current values, within the cursor limit |
| `TransactionView.WriteView.Release` | include/miare/detail/ordered_cursor.hpp:204-215 | exactly the working cursors are counted |
| `TransactionView.WriteView.CursorTree` | include/miare/detail/ordered_cursor.hpp:192-197 | a working cursor walks a tree equal to the current values |
| `Cursor.NextLeaf` | include/miare/detail/ordered_cursor.hpp:306-328 | the leaf after the path, if anything is right of it |
| `Cursor.PreviousLeaf` | include/miare/detail/ordered_cursor.hpp:330-352 | the leaf before the path, if anything is left of it |
| `Cursor.LowerBoundPlace` | include/miare/detail/ordered_cursor.hpp:279-304 | the lower bound in the leaf is the lower bound in the whole sequence |
| `Cursor.RangeIsBounds` | include/miare/detail/ordered_cursor.hpp:371-384 | the index range of a cursor is exactly the keys between its bounds |
| `Cursor.OrderedCursor.First` | include/miare/detail/ordered_cursor.hpp:105-111 | the first index of the range, if the range is not empty |
| `Cursor.OrderedCursor.Last` | include/miare/detail/ordered_cursor.hpp:115-133 | the last index of the range, also for empty and reversed ranges |
| `Cursor.OrderedCursor.SeekLowerBound` | include/miare/detail/ordered_cursor.hpp:137-150 | the first index of the range not below the key |
| `Cursor.OrderedCursor.Next` | include/miare/detail/ordered_cursor.hpp:154-161 | the next index, or unpositioned at the end of the range |
| `Cursor.OrderedCursor.Previous` | include/miare/detail/ordered_cursor.hpp:165-172 | the previous index, or unpositioned at the start of the range |
| `Cursor.OrderedCursor.Current` | include/miare/detail/ordered_cursor.hpp:180-189 | the pair at the position |
| `PrefixRange.PrefixUpper` | include/miare/detail/ordered_cursor.hpp:427-446 | the keys between the prefix and the bound are exactly the keys that start with the prefix |
| `WriterLane.StepKeeps` | include/miare/database.hpp:1608-1700 | every step of writers, maintenance, close and recovery keeps the lane invariant |
| `WriterLane.OrderLostIff` | include/miare/database.hpp:2281-2288 | from a lane in order, a step that leaves the session open keeps the order if and only if it is not the refusal of a maintenance task that is due |
| `WriterLane.InOrderIffNoneRefused` | include/miare/database.hpp:2266-2303 | over any stretch of a run in which the session is open and that begins in order: it ends in order if and only if no maintenance task was refused in it |
| `WriterLane.StallLasts` | include/miare/database.hpp:2281-2288 | over any such stretch, a stalled lane stays stalled and admits nobody |
| `WriterLane.PendingStalls` | include/miare/database.hpp:2266-2303 | a run that stalls: a task and a writer queue up behind a writer, corruption is found, and the task, now due, is refused |
| `WriterLane.LaneInOrder` | include/miare/database.hpp:1608-1654 | in every open state of every run the lane is in order (issued minus served tickets are the waiters and the holder, consecutive tickets wait, a free lane can be entered) or stalled, which the counters alone tell apart; without pending corruption it is in order; always at most one holder and admissions in ticket order |
| `WriterLane.AdmitsInOrder` | include/miare/database.hpp:2266-2289 | whoever enters has the smallest waiting ticket and the lane to itself, and a larger one than all admitted before |
| `WriterLane.CloseFailsKeeps` | include/miare/database.hpp:1900-1950 | a close that fails, on live children or on its checkpoint, has cancelled all waiters and leaves the lane in order |
| `WriterLane.NoUnderflow` | include/miare/database.hpp:2085-2105 | no counter is decremented below zero |
| `LaneProgress.DueCanEnter` | include/miare/database.hpp:1614-1654 | in every open state of every run, a free lane in order that somebody waits for lets the waiter that is due in, alone; or out, if it is a maintenance task and corruption is pending |
| `LaneProgress.TryCanEnter` | include/miare/database.hpp:1675-1700 | a lane that nobody holds or waits for admits a try-writer, whatever readers there are |
| `LaneProgress.OpenAccepts` | include/miare/database.hpp:1608-1615 | an open session without pending corruption takes readers, and writers and tasks while tickets are left |
| `LaneProgress.HolderCanLeave` | include/miare/database.hpp:2085-2105 | in every state of every run, whatever the session has come to, the holder can leave and passes the turn on |
| `LaneProgress.ReaderCanEnd` | include/miare/database.hpp:2085-2105 | a reader that was not invalidated can end |
| `LaneProgress.WaiterCanLeave` | include/miare/database.hpp:1621-1628 | once the session is not open, every waiter can leave |
| `LaneProgress.EveryWaiterCanBeServed` | include/miare/database.hpp:1614-1654 | from every state of every run with the lane open and in order and no corruption pending, the run goes on to a state in which any given waiter holds the lane |
| `LaneProgress.CorruptionCanBeTold` | include/miare/database.hpp:2116-2135 | pending corruption can be told at any time, whoever waits or holds the lane |
| `LaneProgress.CloseCanBegin` | include/miare/database.hpp:1883-1899 | close can begin whenever no maintenance task waits or runs |
| `LaneProgress.EveryCloseCanEnd` | include/miare/database.hpp:1900-1950 | from every state of every run in which a close has begun, the run goes on until it is closed if no child was live, and else back where it was |
| `PageFormat.ParsedExactly` | include/miare/detail/exact_store.hpp:2039-2108 | slots and entries are accepted if and only if they are laid out consecutively |
| `PageFormat.ParsePage` | include/miare/detail/exact_store.hpp:2008-2036 | a payload parses if and only if it is the image of a page, and then to that page |
| `PageFormat.LayOut` | include/miare/detail/exact_store.hpp:866-916 | the image of a page, or refusal if it does not fit |
| `KeyPrefix.CommonPrefixLength` | include/miare/detail/exact_store.hpp:470-479 | the length of the longest common prefix |
| `KeyPrefix.SharedGreatest` | include/miare/detail/exact_store.hpp:541-548 | the prefix found key by key is shared by all keys, and nothing longer is |
| `AllocatorCodec.UsedLengthIs` | include/miare/detail/exact_store.hpp:496-517 | the computed length is the length laid out |
| `AllocatorCodec.EncodeLeaf` | include/miare/detail/exact_store.hpp:519-585 | the image of the runs, or refusal |
| `AllocatorCodec.DecodeLeaf` | include/miare/detail/exact_store.hpp:1255-1342 | accepted if and only if the page is the image of a canonical run list, which is returned |
| `AllocatorCodec.RoundTrip` | include/miare/detail/exact_store.hpp:519-585 | writing a canonical list and reading it back returns it |
| `OrderedCodec.FirstAndLast` | include/miare/detail/exact_store.hpp:842-857 | for strictly sorted keys the common prefix of the first and the last key is that of all |
| `OrderedCodec.LeafUsedLength` | include/miare/detail/exact_store.hpp:842-857 | the computed length is the length laid out |
| `OrderedCodec.EncodeLeaf` | include/miare/detail/exact_store.hpp:859-916 | the image of the items, or refusal |
| `OrderedCodec.DecodeLeaf` | include/miare/detail/exact_store.hpp:2012-2121 | accepted if and only if the page is the image of sorted items within the limits, which are returned |
| `OrderedCodec.LeafRoundTrip` | include/miare/detail/exact_store.hpp:859-916 | keys, inline values and overflow references survive |
| `InternalCodec.ReadChildExact` | include/miare/detail/exact_store.hpp:2046-2101 | an internal entry reads as a child exactly if it begins with that child's entry; trailing bytes are not looked at |
| `InternalCodec.DiffersInside` | include/miare/detail/exact_store.hpp:1014-1022 | where the prefix so far is longer than the next separator, ascending separators differ before the shorter one ends, so whatever lies behind it makes no difference |
| `InternalCodec.InternalUsedLength` | include/miare/detail/exact_store.hpp:1009-1029 | the computed length is the length laid out |
| `InternalCodec.EncodeInner` | include/miare/detail/exact_store.hpp:1031-1091 | the image of the node, or refusal |
| `InternalCodec.DecodeInner` | include/miare/detail/exact_store.hpp:2012-2108 | accepted if and only if the page is the image of a node within the limits, with or without further bytes behind its entries; then that node is returned |
| `InternalCodec.WrittenIffTight` | include/miare/detail/exact_store.hpp:2046-2101 | an accepted page is the one that writing its node gives if and only if every slot is as long as its suffix and reference |
| `InternalCodec.AcceptsSlack` | include/miare/detail/exact_store.hpp:2046-2101 | for every page size, an accepted page that writing its node does not give |
| `InternalCodec.InnerRoundTrip` | include/miare/detail/exact_store.hpp:1031-1091 | separators and children survive |
| `LittleEndian.DecodeEncode` | include/miare/detail/database_format.hpp:103-123 | reading what was written gives the value back, for every value that fits |
| `LittleEndian.EncodeDecode` | include/miare/detail/database_format.hpp:103-123 | writing what was read gives the bytes back |
| `Blake2b.Blake2bHash.Update` | include/miare/detail/blake2b.hpp:22-34 | the message grows by the input; the last block is held back |
| `Blake2b.Blake2bHash.IncrementCounter` | include/miare/detail/blake2b.hpp:103-109 | the two counter words together count modulo 2^128 |
| `Blake2b.Blake2bHash.ZeroRest` | include/miare/detail/blake2b.hpp:41-41 | the rest of the last block is filled with zeros, and its bytes are kept |
| `Blake2b.Blake2bHash.Finish` | include/miare/detail/blake2b.hpp:36-51 | for any split of the input the digest is that of the block loop over the whole message |
| `Blake2b.EncodeWords` | include/miare/detail/blake2b.hpp:43-49 | the state words in little-endian order |

## Left out

- `NativeDurableFile`, file locking, temporary files, exclusive install and backup copying: operating-system calls; only the semantics of the in-memory durable file is modelled.
- Encryption, checksums, compression, key derivation and the BLAKE2b mixing rounds and initial state words: foreign or table-driven code, arbitrary functions here.
- Closing after an unknown commit outcome, which re-reads the slots without a barrier and may commit again: outside the hypothesis that the current publication is stable; after a commit that failed before publication it is `Store.Session.Reselect`.
- The Blob catalogue and its manifests: the same tree and page code as the ordered tree, over fixed-length keys; a put into an emptied internal catalogue root is excluded by the precondition of `OrderedTree.Put`.
- Internal pages of the allocator indexes: the same layout as ordered internal pages, with one check more.
- Capacity limits per transaction and per file other than the block limit of a commit, the mutation limit and the cursor limit: comparisons settled by reading one line.
- Header fields of a publication other than generation, predecessor, slot index, roots and high-water mark: comparisons with constants; a root is one 64-bit number here.
- Memory orderings, thread identity checks, wake-ups and scheduling: the lane is a state machine of steps that are atomic under the session mutex, and `LaneProgress` says what a run can do next, not when a thread is woken; close is enabled only when no maintenance task waits or runs, because both hold the operation lock. Taking a ticket and entering at once are two steps here, so the model has interleavings that the code has not.
- 64-bit overflow of block numbers and byte offsets: numbers are unbounded, except where the code wraps on purpose (BLAKE2b counters) or compares wrapped sums (`AllocatorCodec.Follows`).
- In-place update of tree nodes and vectors: a node owns its children by value in the source too, so trees and lists are values that methods return anew; vector capacity is modelled only where an abort depends on it.
- In-place filling of page buffers: encoders assemble prefix, slots, entries and padding in order instead of writing at offsets into a zeroed buffer; the result is the same byte string.
- Diagnostics counters (evictions, capacity failures, abandoned tail): they influence nothing.
- Store.Session.Commit: takes a plan whose partition is conserved, because otherwise the next load rejects the store, as `CommitPlan.NextLoadIff` states.
- Store.Session.CrashAndReopen: the allocator state after reopening is what a loader returns that depends only on reachable blocks; that loader is modelled for the ordered tree (`TreeLoading.LoadPage`), for allocator leaves (`AllocatorCodec.DecodeLeaf`) and for the checks on the allocator state (`AllocatorLoading.LoadAllocator`), not for the file as a whole.
- BlobContent.OpenExtent: an extent is identified by its chunk number and content; its kind, owner, generation and stored length are checked for equality on both sides in the source and are not modelled.
- TreeCommit.CommitTree: works on extents in an allocator's blocks and not on the bytes of the file; the page formats are proved separately, and `PageLayout` ties the lengths together.
- OrderedCommit.CommitOrdered: the extents of the Blob catalogue, which a commit takes from the same pool, are not among them.
- TransactionView.BuildTree: measures overflow references by a placeholder, as the source does.
