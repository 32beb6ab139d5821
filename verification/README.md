# OrchFS: a model of the file store and its concurrent machinery

OrchFS keeps one file on two media. A file is a list of 32 KiB blocks: an SSD block, a *virtual* block of eight 4 KiB
PMEM pages, or a STRATA block, an SSD block over which some pages are patched by PMEM bytes that a small segment table
lists. The project models the parts of that system whose correctness is not visible in any one function, and proves what
they promise for every input, every schedule and every run:

- **The file itself** (`Media`, `Layout`, `WritePlan`, `PlanTargets`, `WriteEffect`, `PlanOrder`, `PlanBounds`,
  `PlanBuilder`, `WritePrepare`, `Ledger`, `Draft`, `FileStore`, `FileReader`). What a reader sees is a byte array
  (`Layout.View`). A write plans device requests, PMEM stores and table changes over whatever mix of blocks it meets; the
  proofs show that, in any completion order and with merge reads racing early writes, the committed file is the old byte
  array with the written range replaced, that a crash or a device error before the commit leaves every byte old or, inside
  the range, new, that a write fails for want of space exactly when it needs more than there is,
  that a read returns that array, and that no page, block or table is lost or handed out twice.
- **The NVMe backend** (`NvmePlan`, `NvmeWrites`, `WriteQueue`). Byte-granular transfers become aligned segments;
  overlapping writes are ordered by tickets. Every run of the machine, with writes failing anywhere, ends as if the writes
  had been done one after the other, as far as each got, and a flush is issued only after all earlier writes.
- **Locks** (`RangeArbiter`, `LockOrder`). First-come range locks stay exclusive, drop nobody, let nobody overtake a
  conflicting waiter and, taken in the prescribed order, never deadlock: releases alone can finish every run.
- **The extent cache** (`ExtentCache`, `ExtentCoherence`). Extents are a canonical form of the block map; an incremental
  update is the very snapshot a rebuild gives; the cache is coherent over every run whose aborts are safe.
- **The name space** (`RenameTree`, `Orphans`, `Dentries`). What hangs below the root stays a tree under mkdir, rmdir and
  concurrent renames; storage lives exactly as long as a name or a handle needs it, except after opens that come too late;
  cached lookups agree with the directories through creates, removals and renames.
- **Transport, allocator, runtime, journal** (`IpcRing`, `Bitmap`, `SharedBitmap`, `BatchAwaiter`, `RuntimeClose`,
  `Journal`).

`Arithmetic` holds facts about quotients. Loops and objects of the source are methods and classes here, proved against
functions and invariants; a protocol that runs on several threads is a state machine over its steps.

Five promises turn out not to hold as they stand. In each case the code is modelled as it is, a lemma gives a
concrete failing case, and the exact condition is proved:

1. An append that needs only pages right behind a STRATA block fails with EIO however much space there is
   (`Draft.Stuck`, `Draft.Prospect`); `FileStore.StuckRun` gets there with three writes to a new file.
2. Creating a directory in a directory that was removed while open makes one that nothing below the root names. In every
   state a new directory is in the tree, and named by a path from the root, if and only if its parent is
   (`RenameTree.MkdirLinksExactlyUnderLinked`, `RenameTree.NewIsNamedExactlyUnderNamed`); a run loses directories if and
   only if some mkdir of it is in an orphan (`RenameTree.RunLosesExactlyByMkdirInOrphan`). The tree itself survives every
   run.
3. A write that fails after the extent snapshot was rebuilt can leave that snapshot stale: the cache stays coherent if and
   only if there is no snapshot of the current size, nobody, reader or committing writer, built it during the write, or no
   mapping inside the file had changed (`ExtentCoherence.AbortIsCoherentExactlyWhenSafe`).
4. A worker other than worker 0 that leaves on a tentative close can strand an item, because a schedule call under way or
   a late root submission, though refused, takes the close back. Once a worker has left, this stays possible if and only
   if the close is neither final nor past its second look at the submitters with no schedule call under way
   (`RuntimeClose.LeftWorkerStrandsExactlyUntilSettled`).
5. An open through "." or ".." looks at the directory before it waits for the inode's state and then takes a reference
   without a second look, so it can end with a handle on a freed inode (`Orphans.LateOpen`). That happens if and only if a
   committed last close of the orphaned directory falls between the look and the reference
   (`Orphans.LateExactlyAfterALastClose`), and handles are sound over a run if and only if it never happens
   (`Orphans.SoundExactlyWithoutLateOpens`). Opens by name and by number are always safe (`Orphans.OpensByNameAreSound`).

## Model

| member | source | states |
|---|---|---|
| `FileStore.Store.Write` | Async/kfs_coroutine_core.cpp:2098-2552 | for every file, offset, data, device schedule and device error: a gap or empty write writes nothing; EFBIG exactly when data inside or right behind the file would end past 2^57 bytes; otherwise the answer is exactly what index and stock foretell; on success the byte array is the old one with the range replaced; on an error mapping and stock are the old ones and each byte is old or, inside the range and only after a device error, new; an overwrite of virtual blocks and whole or long SSD runs takes nothing |
| `FileStore.Store.WriteThrough` | Async/kfs_coroutine_core.cpp:2200-2250 | a write in a transaction splices the data in, or leaves mapping and stock as they were and every byte old or, after a device error, new; it takes exactly the stock it needs |
| `FileStore.Store.Overwrite` | Async/kfs_coroutine_core.cpp:2148-2200 | a stable overwrite splices the data in, or fails with every byte old or new, in either case without touching the mapping or the stock |
| `FileStore.Store.Read` | Async/kfs_coroutine_core.cpp:1933-2096 | a read returns the slice of the file's byte array that exists and fits, and touches nothing past it |
| `FileStore.Store.Truncate` | Async/kfs_coroutine_core.cpp:2736-2802 | the byte array is cut or padded with zeros to the size; on error it is padded by whole chunks, and the error is what a write of the next chunk behind it answers; EFBIG exactly above the maximum; shrinking never fails otherwise |
| `FileStore.Store.constructor` | Async/kfs_coroutine_core.cpp:1117-1203 | a new file reads as empty and owns no storage |
| `FileStore.Perform` | Async/kfs_coroutine_core.cpp:2403-2552 | plan, device batches, PMEM stores and commit together splice the data into the view, whatever the device order |
| `FileStore.CrashBeforeCommit` | Async/kfs_coroutine_core.cpp:2403-2549 | with any torn part of the planned requests on the media and the old index back, bytes outside the write are old and bytes inside are old or new |
| `FileStore.Break` | Async/kfs_coroutine_core.cpp:2403-2512 | a device error in the middle leaves on each medium any mixture of old bytes and bytes of planned requests |
| `FileStore.BrokenIsOldOrNew` | Async/kfs_coroutine_core.cpp:2403-2512 | under the old index such a mixture reads as the old contents with some bytes of the write in place |
| `FileStore.OverwriteBlocksAppend` | LibFS/index.c:725-851 | a file ending in an SSD block can be appended to; after any partial overwrite of that block no append ending inside the next block can be prepared |
| `FileStore.StuckRun` | LibFS/index.c:725-851 | three writes to a new store, a whole block, one byte over it, one byte behind it, of which the third is refused with EIO while the other two are taken |
| `FileStore.IsStable` | Async/kfs_coroutine_core.cpp:2166-2200 | decides exactly whether every touched block takes its part without a mapping change |
| `FileStore.InPlaceIsStable` | Async/kfs_coroutine_core.cpp:2166-2200 | the overwrites that need no transaction, told in bytes and blocks |
| `FileStore.StableIsPrepared` | Async/kfs_coroutine_core.cpp:2151-2200 | a stable overwrite inside the file needs no preparation |
| `FileStore.StableKeepsTables` | Async/kfs_coroutine_core.cpp:2151-2200 | a stable overwrite changes no segment table, so there is nothing to commit |
| `FileStore.PlanWrite` | Async/kfs_coroutine_core.cpp:2223-2401 | the planning loop consumes the source block by block into exactly the specified plan |
| `FileStore.RunSsd` | Async/kfs_coroutine_core.cpp:2403-2483 | with or without the early pipeline, every SSD byte ends as the one plan request that names it says |
| `FileStore.RunPmem` | Async/kfs_coroutine_core.cpp:2485-2500 | the PMEM stores settle: named bytes new, all others kept |
| `FileStore.WriteBatch` | Async/kfs_coroutine_core.cpp:2470-2483 | a batch of disjoint requests settles in whatever order it completes |
| `FileStore.SettledTwice` | Async/kfs_coroutine_core.cpp:2403-2483 | early batch and late batch that share no byte equal one batch |
| `FileStore.ShrinkKeeps` | Async/kfs_coroutine_core.cpp:2736-2802 | moving the size down keeps the store well formed and the prefix of the contents |
| `FileStore.GrowByZeros` | Async/kfs_coroutine_core.cpp:2736-2802 | one chunk of zeros at the end carries a padded file to the next padded size |
| `Media.ScheduleSettles` | Async/kfs_coroutine_core.cpp:2470-2483 | disjoint requests applied in any order, with repeats, settle the requests named |
| `Media.BatchOrderIsIrrelevant` | Async/kfs_coroutine_core.cpp:2470-2483 | any complete schedule of disjoint requests gives the same medium as the submission order |
| `Media.PutAllSettles` | Async/kfs_coroutine_core.cpp:2470-2483 | the submission order settles the batch |
| `Media.SettledIsUnique` | Async/kfs_coroutine_core.cpp:2470-2483 | two media settled by the same requests are equal |
| `Layout.AddSegmentCovers` | Async/kfs_coroutine_core.cpp:2356-2397 | a new segment makes exactly its own bytes patched and keeps all others as they were |
| `WriteEffect.CommittedView` | Async/kfs_coroutine_core.cpp:2223-2549 | once both media have settled, the committed file reads as the old byte array with the range replaced, over every mix of blocks |
| `WriteEffect.CommittedOk` | Async/kfs_coroutine_core.cpp:2525-2549 | the committed file is well formed: every byte has a place, no two blocks share one |
| `WriteEffect.CrashedByte` | Async/kfs_coroutine_core.cpp:2403-2549 | under the old tables, any torn mixture of requests shows old bytes outside the range and old or new ones inside |
| `WriteEffect.BlockByteAfter` | Async/kfs_coroutine_core.cpp:2252-2397 | within one block a written byte reads as the data and any other as before, whichever medium held it or now holds it |
| `WriteEffect.BlockByteTorn` | Async/kfs_coroutine_core.cpp:2252-2397 | the same for a half-done block under its old tables |
| `WriteEffect.WriteTables` | Async/kfs_coroutine_core.cpp:2356-2397 | each segment table ends as its page's target if its block is touched, else unchanged |
| `WriteEffect.WriteSsdSound` | Async/kfs_coroutine_core.cpp:2252-2397 | no planned SSD request puts any byte but the target of its place |
| `WriteEffect.WriteSsdComplete` | Async/kfs_coroutine_core.cpp:2252-2397 | every SSD byte with a target is named by some request |
| `PlanTargets.BlockSsdSound` | Async/kfs_coroutine_core.cpp:2252-2397 | the same soundness for one block's requests |
| `PlanTargets.BlockSsdComplete` | Async/kfs_coroutine_core.cpp:2252-2397 | the same completeness for one block |
| `PlanTargets.BlockPmemSound` | Async/kfs_coroutine_core.cpp:2282-2397 | a planned PMEM store puts only target bytes of pages of its block |
| `PlanTargets.BlockPmemComplete` | Async/kfs_coroutine_core.cpp:2282-2397 | every PMEM byte with a target is stored |
| `PlanTargets.BlockTablesFrom` | Async/kfs_coroutine_core.cpp:2356-2397 | a planned table change is that of one page of the block and is its target |
| `PlanTargets.BlockTablesInto` | Async/kfs_coroutine_core.cpp:2356-2397 | a table the plan leaves alone is already its target |
| `PlanTargets.MergedPageSound` | Async/kfs_coroutine_core.cpp:2421-2468 | folding a full segment table into the SSD writes what the page reads as, before the new bytes |
| `PlanOrder.WriteSsdApart` | Async/kfs_coroutine_core.cpp:2403-2483 | no two SSD requests of a write share a byte |
| `PlanOrder.WritePmemApart` | Async/kfs_coroutine_core.cpp:2485-2500 | no two PMEM stores of a write share a byte |
| `PlanOrder.WriteSsdInBounds` | Async/kfs_coroutine_core.cpp:2403-2483 | every request lies on the device |
| `PlanOrder.PipelineIsInvisible` | Async/kfs_coroutine_core.cpp:2403-2483 | merge reads taken while the early writes are torn in any way give the same requests, and any schedule the same medium |
| `PlanBounds.WriteMergesOk` | Async/kfs_coroutine_core.cpp:2421-2468 | every merge the plan asks for has its page and table in range, so building it cannot fail |
| `PlanBuilder.OverlayPage` | Async/kfs_coroutine_core.cpp:254-278 | patches exactly the covered bytes of the page from PMEM, nothing outside it; fails exactly on a bad address or segment |
| `PlanBuilder.PlanBlock` | Async/kfs_coroutine_core.cpp:2252-2397 | plans a block exactly when its pages are prepared, and then as specified |
| `PlanBuilder.PlanPages` | Async/kfs_coroutine_core.cpp:2282-2397 | the page loop covers the touched pages once each and fails exactly on a missing page |
| `PlanBuilder.MergeWrites` | Async/kfs_coroutine_core.cpp:2421-2468 | builds the merge writes exactly when every page and table is in range |
| `PlanBuilder.ClearTables` | Async/kfs_coroutine_core.cpp:2306-2317 | a wholly overwritten STRATA block has each of its tables emptied |
| `WritePlan.StrataPagePlan` | Async/kfs_coroutine_core.cpp:2318-2397 | a STRATA page goes whole to the SSD with its table emptied, or to PMEM with one more segment, a table of twelve folded into the SSD first |
| `WritePlan.FullToSsdExactly` | Async/kfs_coroutine_core.cpp:2318-2355 | the SSD gets a page exactly when it is written whole by a write of six whole pages or more |
| `WritePrepare.ExtendsKeepsView` | LibFS/kfs_core_api.c:239-300 | growing the index is invisible: on any media the file reads the same |
| `WritePrepare.AddSsdKeeps` | LibFS/index.c:657-714 | appending an SSD block keeps the file well formed, the stock disjoint from it and every byte in place |
| `WritePrepare.AddPageKeeps` | LibFS/index.c:725-851 | the same for appending a page |
| `WritePrepare.AddOverlayKeeps` | LibFS/index.c:1069-1128 | the same for putting a page and an empty table over an SSD block |
| `WritePrepare.GapIsAtTail` | LibFS/index.c:725-851 | a missing page can only be in the last block, which is then filled exactly up to it |
| `WritePrepare.AddPageToLast` | LibFS/index.c:725-851 | a page appended to a short last block goes to its next slot and nowhere else |
| `WritePrepare.AddPageToNew` | LibFS/index.c:725-851 | a page appended behind complete blocks opens a new block |
| `Ledger.AddSsdConserves` | LibFS/index.c:657-714 | the units of storage in the file and in the stock together stay the same set |
| `Ledger.AddPageConserves` | LibFS/index.c:725-851 | the same for a page |
| `Ledger.AddOverlayConserves` | LibFS/index.c:1069-1128 | the same for an overlay: page and table move from the stock to an empty slot |
| `Draft.Transaction.constructor` | LibFS/lib_log.c:827-849 | a transaction starts from a private copy, so dropping it gives everything back |
| `Draft.Transaction.AppendPage` | LibFS/index.c:725-851 | appends one page, or says exactly when it is EIO (a STRATA block in front) or ENOSPC |
| `Draft.Transaction.AppendSsd` | LibFS/index.c:657-714 | appends exactly `count` SSD blocks and keeps the rest, or ENOSPC exactly when the stock is short |
| `Draft.Transaction.AppendPages` | LibFS/kfs_data_plan.c:77-137 | one new block filled up to exactly `count` pages, with both errors exact |
| `Draft.Transaction.AppendBlocks` | LibFS/kfs_data_plan.c:77-137 | SSD blocks for whole blocks and pages for a partial last one; EIO and ENOSPC exactly as index and stock foretell |
| `Draft.Transaction.FillPages` | LibFS/kfs_data_plan.c:139-189 | the first pages of a block are all there and no other block changes, for exactly the missing pages; ENOSPC exactly when there are fewer |
| `Draft.Transaction.FillRange` | LibFS/kfs_data_plan.c:139-189 | all virtual blocks of the range have the pages the write needs, for exactly the pages they lacked |
| `Draft.Transaction.Acquire` | LibFS/kfs_data_plan.c:139-189 | every block of the range is in the index with the pages the write needs, for exactly the stock that takes; errors exactly otherwise |
| `Draft.Transaction.EnsureStrata` | LibFS/kfs_data_plan.c:15-75 | every touched page of an SSD or STRATA block has PMEM behind it, for exactly the missing pages and tables; EINVAL exactly on a bad range or block, ENOSPC exactly when the stock is short |
| `Draft.Transaction.PrepareBlock` | Async/kfs_coroutine_core.cpp:2223-2251 | one touched block is prepared, for exactly the overlay it lacks, and no other changes; ENOSPC exactly when the stock is short |
| `Draft.Transaction.PrepareBlocks` | Async/kfs_coroutine_core.cpp:2223-2251 | all touched blocks are prepared exactly if the stock covers what the whole write needs |
| `Draft.Transaction.Prepare` | LibFS/kfs_core_api.c:239-300 | the whole write is prepared with the old contents untouched if and only if the index is not stuck and the stock covers what the write needs; which error it is otherwise is exact; exactly that much is taken |
| `Draft.MissingPages` | LibFS/kfs_data_plan.c:15-75 | exactly the touched pages without PMEM, in order |
| `Draft.AppendedIsCovered` | LibFS/kfs_data_plan.c:77-137 | a block appended as an SSD block is written whole, so no stale byte of it becomes visible |
| `Draft.StartsInIndex` | LibFS/kfs_data_plan.c:139-189 | a write that starts inside the file starts inside the index or right behind complete blocks |
| `FileReader.Read` | Async/kfs_coroutine_core.cpp:1933-2096 | the read loop delivers the slice of the view, for every mix of blocks |
| `FileReader.ReadVirtual` | Async/kfs_coroutine_core.cpp:1995-2021 | page by page, a virtual block shows its bytes and nothing else of the destination changes |
| `FileReader.LoadBlock` | Async/kfs_coroutine_core.cpp:2067-2088 | an SSD image with its overlays applied shows every byte of the block |
| `FileReader.ReadBlock` | Async/kfs_coroutine_core.cpp:1973-2052 | each kind of block shows its bytes in its part of the destination only |
| `NvmePlan.PlanIo` | KernelFS/spdk_nvme_backend.cpp:106-193 | errors exactly on bad geometry and 64-bit overflow; otherwise aligned, bounded, gapless segments over the smallest aligned window, reading first exactly where a segment is partial |
| `NvmePlan.Head` | KernelFS/spdk_nvme_backend.cpp:163-173 | an unaligned start costs one logical block and ends aligned or at the end |
| `NvmePlan.Middle` | KernelFS/spdk_nvme_backend.cpp:175-182 | the aligned part is cut into segments within the transfer limit without gap |
| `NvmePlan.MaxTransfer` | KernelFS/spdk_nvme_backend.cpp:117-121 | the largest multiple of the block size within the limit |
| `NvmePlan.ReadPartsTile` | KernelFS/spdk_nvme_backend.cpp:507-520 | the user parts of the segments are, in order, the bytes asked for |
| `NvmePlan.WritePartsPut` | KernelFS/spdk_nvme_backend.cpp:749-915 | after the first segments exactly the written bytes below their bound are new |
| `NvmePlan.WritePlanIsPut` | KernelFS/spdk_nvme_backend.cpp:749-915 | read-modify-write of all segments changes exactly the bytes of the write |
| `NvmePlan.BoundsInside` | KernelFS/spdk_nvme_backend.cpp:106-193 | every segment boundary lies in the window |
| `NvmeWrites.EveryRunIsSerial` | KernelFS/spdk_nvme_backend.cpp:749-968 | in every interleaving of submissions, grants, device reads, patches, writes and failures, when all are over the medium is that of the submitted requests one after the other in submission order: those without a failure with all their bytes, one that failed while it ran with some, one that failed before with none |
| `NvmeWrites.RunWithoutFailures` | KernelFS/spdk_nvme_backend.cpp:749-968 | without failures that medium is the requests of the submissions, written in order |
| `NvmeWrites.FailStep` | KernelFS/spdk_nvme_backend.cpp:541-553 | a failure of any write at any point, granted or not, keeps the invariant for all others |
| `NvmeWrites.BrokenByte` | KernelFS/spdk_nvme_backend.cpp:541-553 | each byte in the range of a write that failed while it ran is what earlier writes left or what it puts |
| `NvmeWrites.FlushFollowsItsWrites` | KernelFS/spdk_nvme_backend.cpp:936-968 | a flush that was issued has every write submitted before it complete or failed |
| `NvmeWrites.RunAsSubmitted` | KernelFS/spdk_nvme_backend.cpp:749-968 | in every run the machine works on the offsets and data that were submitted, only writes told to fail did fail, and each flush waits for the writes submitted before it |
| `NvmeWrites.EveryRunCanComplete` | KernelFS/spdk_nvme_backend.cpp:749-968 | from every state of every run all writes can be brought to their end without a failure |
| `NvmeWrites.FlushedExactly` | KernelFS/spdk_nvme_backend.cpp:286-294 | in every run a flush can be issued exactly when every write submitted before it is over |
| `NvmeWrites.GrantedExactly` | KernelFS/spdk_nvme_backend.cpp:232-255 | a waiting write can be granted exactly if its window meets that of no earlier write that is not over |
| `NvmeWrites.StepKeepsInv` | KernelFS/spdk_nvme_backend.cpp:547-589 | every step keeps it that each bounce buffer holds what a serial execution would find |
| `WriteQueue.WriteCoordinator.constructor` | KernelFS/spdk_nvme_backend.cpp:195-230 | a new coordinator has no tickets |
| `WriteQueue.WriteCoordinator.Accept` | KernelFS/spdk_nvme_backend.cpp:195-230 | a new last ticket exactly for a nonempty window while numbers last |
| `WriteQueue.WriteCoordinator.TryGrant` | KernelFS/spdk_nvme_backend.cpp:232-255 | grants exactly a linked ticket whose window meets that of no earlier one |
| `WriteQueue.WriteCoordinator.Complete` | KernelFS/spdk_nvme_backend.cpp:257-279 | unlinks that ticket only, and the granted ones stay clear |
| `WriteQueue.WriteCoordinator.CaptureFence` | KernelFS/spdk_nvme_backend.cpp:281-284 | the fence is at or above the number of every ticket ever given out, linked or not, and below that of every later one |
| `WriteQueue.WriteCoordinator.Passed` | KernelFS/spdk_nvme_backend.cpp:286-294 | ready exactly when no ticket up to the fence is linked |
| `WriteQueue.WriteCoordinator.GrantedApart` | KernelFS/spdk_nvme_backend.cpp:232-255 | no two granted tickets overlap |
| `WriteQueue.GrantMatchesQueue` | KernelFS/spdk_nvme_backend.cpp:232-255 | the queue's answer is the grant condition of the write machine |
| `WriteQueue.FenceMatchesQueue` | KernelFS/spdk_nvme_backend.cpp:286-294 | the queue's fence is the flush condition of the write machine |
| `RangeArbiter.AcquireKeeps` | Async/range_arbiter.cpp:118-157 | active requests stay conflict-free and every waiter has somebody in front |
| `RangeArbiter.SweepKeeps` | Async/range_arbiter.cpp:253-300 | the same after a sweep over the waiters |
| `RangeArbiter.SweepConserves` | Async/range_arbiter.cpp:253-300 | a sweep loses, repeats and invents no request and keeps the order |
| `RangeArbiter.NobodyOvertaken` | Async/range_arbiter.cpp:253-300 | whoever is granted conflicts with nobody active and nobody who waited in front |
| `RangeArbiter.ReleaseKeeps` | Async/range_arbiter.cpp:141-157 | a release keeps the invariant and takes out only the released request |
| `RangeArbiter.FirstWaiterHasActiveBlocker` | Async/range_arbiter.cpp:253-300 | the first waiter is blocked by a holder, so a release always reaches it |
| `RangeArbiter.Rounded` | Async/range_arbiter.cpp:314-336 | a range is taken exactly if it is not empty and does not run past the last offset, and then with the blocks of its first and last byte |
| `RangeArbiter.PermitsShareNoByte` | Async/range_arbiter.cpp:314-336 | two permits held together that share a byte are both for reading |
| `RangeArbiter.TogetherUnlessTheyShareABlock` | Async/range_arbiter.cpp:189-206 | two byte ranges exclude each other exactly if they share a block and one is for writing |
| `RangeArbiter.RangeState.constructor` | Async/range_arbiter.cpp:118-157 | a new arbiter holds and queues nothing |
| `RangeArbiter.RangeState.AnyConflict` | Async/range_arbiter.cpp:189-206 | finds a conflict exactly if there is one |
| `RangeArbiter.RangeState.Acquire` | Async/range_arbiter.cpp:118-157 | granted at once exactly if every holder and waiter is on other blocks or reads like it, else last in the queue |
| `RangeArbiter.RangeState.GrantWaiters` | Async/range_arbiter.cpp:253-300 | the in-place loop is the sweep |
| `RangeArbiter.RangeState.Release` | Async/range_arbiter.cpp:141-157 | drops a held request and sweeps; a request that is not held changes nothing |
| `LockOrder.NoRunDeadlocks` | Async/namespace_coordinator.cpp:147-188 | in every run that takes locks in ascending order, while anybody waits the release of some lock by an operation that waits for nothing is possible |
| `LockOrder.EveryRunCanFinish` | Async/range_arbiter.cpp:253-300 | from every state of every run, releases alone grant every waiter and free every lock |
| `LockOrder.SomebodyCanMove` | Async/namespace_coordinator.cpp:147-188 | the same for every state with the invariant |
| `LockOrder.RunKeepsInv` | Async/range_arbiter.cpp:118-157 | every run keeps holders exclusive and requests above what their owner holds |
| `LockOrder.NobodyIsForgotten` | Async/range_arbiter.cpp:118-157 | in every run each lock has exactly the requests made for it and not taken back |
| `LockOrder.OrderedDirectories` | Async/namespace_coordinator.cpp:147-188 | the directories in strictly ascending order without repeats, refused exactly when there are none, too many or a negative one |
| `LockOrder.OrderedTakesAreEnabled` | Async/namespace_coordinator.cpp:147-188 | taking them in that order respects the lock order |
| `ExtentCache.Append` | Async/kfs_coroutine_core.cpp:160-207 | adds exactly the extent's blocks to the block map, as part of the last run exactly if it continues it within 64 bits, and keeps the list sorted and maximal |
| `ExtentCache.Lookup` | Async/kfs_coroutine_core.cpp:209-238 | binary search is the block map |
| `ExtentCache.Build` | Async/kfs_coroutine_core.cpp:632-658 | succeeds exactly if the index covers the size in bytes; a block that starts below the size, and no other, is mapped as in the index, in maximal runs |
| `ExtentCache.Update` | Async/kfs_coroutine_core.cpp:740-824 | in one pass: nothing at or past the new size in bytes, below it replaced blocks new and the rest kept, runs maximal |
| `ExtentCache.Step` | Async/kfs_coroutine_core.cpp:788-818 | one old extent, before, across or behind the replaced range, is accounted for |
| `ExtentCache.Cut` | Async/kfs_coroutine_core.cpp:799-817 | prefix and suffix keep the mapping of each of their blocks |
| `ExtentCache.AppendClipped` | Async/kfs_coroutine_core.cpp:764-771 | adds exactly the blocks below the new end |
| `ExtentCache.InsertReplacements` | Async/kfs_coroutine_core.cpp:773-786 | adds exactly the replacements below the new end |
| `ExtentCache.CanonicalIsUnique` | Async/kfs_coroutine_core.cpp:160-207 | two sorted maximal lists for the same block map are equal |
| `ExtentCache.UpdateIsRebuild` | Async/kfs_coroutine_core.cpp:740-824 | the incremental update equals the snapshot rebuilt from the new index |
| `ExtentCoherence.EveryRunIsCoherent` | Async/kfs_coroutine_core.cpp:632-691 | over every run of writes, early size changes, commits, lookups, truncates and safe aborts, the snapshot a reader takes equals the index outside writes in flight |
| `ExtentCoherence.AbortIsCoherentExactlyWhenSafe` | Async/kfs_coroutine_core.cpp:2525-2549 | an abort leaves the cache coherent if and only if there is no snapshot of the current size, nobody built it during the write, or the write changed no mapping of a block inside the file |
| `ExtentCoherence.AbortAfterRun` | Async/kfs_coroutine_core.cpp:2525-2549 | after any run whose aborts were safe the cache is coherent, and the next abort keeps it so under exactly that condition |
| `ExtentCoherence.SetSizeKeeps` | Async/kfs_coroutine_core.cpp:2516-2523 | a size that is in memory before its commit, and that others may publish, leaves the cache right |
| `ExtentCoherence.UnsafeAbortExists` | Async/kfs_coroutine_core.cpp:673-691 | a run in which a reader's rebuild and a failed write leave a stale mapping |
| `ExtentCoherence.CommittedMapping` | Async/kfs_coroutine_core.cpp:2223-2549 | over every run, with aborts of any kind, the index maps a block that no write has in flight as the last committed write of it said, or as at the start |
| `ExtentCoherence.IndexIsCommitted` | Async/kfs_coroutine_core.cpp:2223-2549 | the same from any state, with what each write in flight has made and what an abort would put back |
| `ExtentCoherence.SnapshotsAreTaken` | Async/kfs_coroutine_core.cpp:673-691 | readers, truncates and publishing writers leave a snapshot that the next reader takes |
| `ExtentCoherence.BeginsExactly` | Async/kfs_coroutine_core.cpp:2098-2150 | a write can start exactly on a range that meets no write in flight |
| `ExtentCoherence.BuildRepresents` | Async/kfs_coroutine_core.cpp:632-658 | a built snapshot stands for the clipped index |
| `ExtentCoherence.UpdateRepresents` | Async/kfs_coroutine_core.cpp:708-824 | an updated snapshot stands for the replaced view |
| `ExtentCoherence.ReaderSeesIndex` | Async/kfs_coroutine_core.cpp:673-691 | a lookup of a block no write has in flight gives the index entry |
| `RenameTree.EveryRunKeepsTheTree` | Async/kfs_coroutine_core.cpp:1423-1931 | over every interleaving of mkdir anywhere, rmdir, gated renames and last closes of orphans, the directories below the root are one tree: each named once, by its parent, with a way to the root |
| `RenameTree.LinkedMeansNamed` | Async/kfs_coroutine_core.cpp:1008-1038 | the directories of that tree are exactly those that a path of names leads to from the root |
| `RenameTree.MkdirLinksExactlyUnderLinked` | Async/kfs_coroutine_core.cpp:1117-1203 | in every state, a new directory is in the tree if and only if its parent is |
| `RenameTree.NewIsNamedExactlyUnderNamed` | Async/kfs_coroutine_core.cpp:1117-1203 | in every state, a path of names leads from the root to a new directory if and only if one leads to its parent |
| `RenameTree.RunLosesExactlyByMkdirInOrphan` | Async/kfs_coroutine_core.cpp:1117-1203 | a run loses a directory, neither in the tree nor waiting for a last close, if and only if some mkdir of it had a parent that was an orphan |
| `RenameTree.LostForGood` | Async/kfs_coroutine_core.cpp:832-864 | a lost directory is lost in every continuation of the run |
| `RenameTree.StepKeepsWholeExactly` | Async/kfs_coroutine_core.cpp:1117-1931 | no step but a mkdir in an orphan loses a directory |
| `RenameTree.LastCloseKeeps` | Async/kfs_coroutine_core.cpp:832-864 | freeing an orphan, whatever was made inside it, keeps the tree |
| `RenameTree.MkdirKeepsWholeExactlyWhenLinked` | Async/kfs_coroutine_core.cpp:1117-1203 | while no directory is lost, a new one is in the tree, and none gets lost, if and only if the parent is not an orphan |
| `RenameTree.HangingDirectory` | Async/kfs_coroutine_core.cpp:1117-1203 | rmdir of an open directory, mkdir in it, last close: a directory is left that exists and that nothing leads to; one made inside it is not in the tree either |
| `RenameTree.CommitKeeps` | Async/kfs_coroutine_core.cpp:1605-1931 | committing a rename between directories after its ancestry walk keeps the tree, target replaced or not |
| `RenameTree.WithinKeeps` | Async/kfs_coroutine_core.cpp:1717-1808 | a rename inside one directory keeps the tree |
| `RenameTree.CommitRenames` | Async/kfs_coroutine_core.cpp:1605-1715 | after a rename between directories the new name leads to the moved directory, whose ".." is the new parent; the old name is gone, a replaced directory has left the tree, every other name leads where it did |
| `RenameTree.WithinRenames` | Async/kfs_coroutine_core.cpp:1717-1808 | the same inside one directory |
| `RenameTree.RmdirRemoves` | Async/kfs_coroutine_core.cpp:1423-1572 | after an rmdir the name is gone, the directory has left the tree, every other name leads where it did |
| `RenameTree.MkdirMakes` | Async/kfs_coroutine_core.cpp:1117-1203 | after a mkdir the name leads to a new empty directory with its parent behind "..", every other name leads where it did |
| `RenameTree.RenameGoesThrough` | Async/kfs_coroutine_core.cpp:1808-1931 | undisturbed, a directory can be renamed into every directory it is not above, over a free name or another, empty directory |
| `RenameTree.RmdirKeeps` | Async/kfs_coroutine_core.cpp:1423-1572 | removing an empty directory, open or not, keeps the tree |
| `RenameTree.MkdirKeeps` | Async/kfs_coroutine_core.cpp:1117-1203 | creating a directory, in the tree or in an orphan, keeps the tree |
| `RenameTree.WalkProves` | Async/kfs_coroutine_core.cpp:1574-1603 | a walk that reached the root under the gate proves the source is not above the target, whatever else ran meanwhile |
| `RenameTree.GivenUpRename` | Async/kfs_coroutine_core.cpp:1862-1876 | a rename can be given up at any time, with no name changed and the gate open for the next one |
| `RenameTree.WithinGoesThrough` | Async/kfs_coroutine_core.cpp:1717-1808 | a rename inside a directory is possible whenever the new name is free or leads to another, empty directory |
| `RenameTree.WalkArrives` | Async/kfs_coroutine_core.cpp:1574-1603 | undisturbed, a walk ends at the source if that is above the target, and at the root otherwise |
| `RenameTree.MovedReaches` | Async/kfs_coroutine_core.cpp:1605-1715 | moving a directory below one it is not above keeps everybody's path to the root |
| `RenameTree.ParentIsBelow` | Async/kfs_coroutine_core.cpp:1574-1603 | the walk answers exactly whether the ancestor is above, always answers on a path to the root, and ends even on a loop |
| `Orphans.StorageLivesWhileNeeded` | Async/kfs_coroutine_core.cpp:832-864 | for one inode number, after every history of creations, opens, closes, removals, failed commits and crashes with their reap, an inode is stored if and only if it is named or waits for its last close; and if and only if it is named or open, unless an open was late |
| `Orphans.FreedForGood` | LibFS/kfs_core_api.c:24-54 | a freed inode is never stored again in any run, and never open again in any run if and only if no open that looked at it had still to take its reference |
| `Orphans.RunKeepsLifeOk` | Async/kfs_coroutine_core.cpp:1448-1505 | every history keeps the durable orphan mark in step with the one in memory, the count equal to the handles, and an open by name on an inode that still has its name |
| `Orphans.NamedFromCreationToRemoval` | Async/kfs_coroutine_core.cpp:1117-1203 | in every run a number has a name exactly from a creation to the next committed removal |
| `Orphans.SoundExactlyWithoutLateOpens` | Async/kfs_coroutine_core.cpp:1263-1281 | over every run, no handle is ever on a freed inode or on another one with its number if and only if no open took its reference after the inode it looked at was gone |
| `Orphans.LateExactlyAfterALastClose` | Async/kfs_coroutine_core.cpp:1311-1361 | whatever runs between the look of an open and its reference, the reference is late if and only if a committed last close of that orphan is among it; never after a look by name or at a named inode |
| `Orphans.OpensByNameAreSound` | Async/kfs_coroutine_core.cpp:1283-1300 | a run whose opens find names, or lock the inode before they look, never has a handle on a freed inode |
| `Orphans.LateOpen` | Async/kfs_coroutine_core.cpp:1337-1361 | a run in which an open through ".." gets a handle on a freed inode, and the next inode with that number is kept from deletion by it |
| `Orphans.InodeStates.constructor` | Async/namespace_coordinator.cpp:359-376 | nothing is open at the start |
| `Orphans.InodeStates.Retain` | Async/namespace_coordinator.cpp:359-376 | one more reference to that inode and nothing else, refused exactly at the limit or when a first one has no room |
| `Orphans.InodeStates.MarkOrphanIfOpen` | Async/namespace_coordinator.cpp:378-391 | deletion is deferred, and the mark set, exactly for an open inode; no count changes |
| `Orphans.InodeStates.RollbackOrphan` | Async/namespace_coordinator.cpp:393-403 | the inode is no orphan any more and nothing else has changed |
| `Orphans.InodeStates.ReleaseReference` | Async/namespace_coordinator.cpp:405-428 | tells exactly the last reference of an orphan and of a live inode |
| `Orphans.InodeStates.Erase` | Async/namespace_coordinator.cpp:430-443 | the inode has no reference and no mark, every other inode what it had |
| `Orphans.Inodes.constructor` | Async/namespace_coordinator.cpp:359-376 | every number is unused at the start |
| `Orphans.Inodes.Make` | Async/kfs_coroutine_core.cpp:1117-1203 | the inode is stored and named, whatever the coordinator still has under its number; that is the creation step of its number's life, and no other changes |
| `Orphans.Inodes.Find` | Async/kfs_coroutine_core.cpp:1311-1375 | the first half of an open is the look step of that number's life, found exactly if the entry or the inode is there |
| `Orphans.Inodes.Take` | Async/kfs_coroutine_core.cpp:1263-1281 | the second half is its reference step through the coordinator's map; by name the inode is there; otherwise the handle is sound exactly if the inode looked at still is |
| `Orphans.Inodes.OpenDirectory` | Async/kfs_coroutine_core.cpp:2870-2898 | opening by number looks with the state locked: a reference exactly to what is stored, and sound handles stay sound |
| `Orphans.Inodes.Unlink` | Async/kfs_coroutine_core.cpp:1448-1505 | committed, the name is gone and the inode stays, marked as an orphan on disk and in memory, exactly if it is open; not committed, nothing on disk changes; that is the removal step of its number's life |
| `Orphans.Inodes.Release` | Async/kfs_coroutine_core.cpp:832-864 | one reference less, or, for the last one of an orphan, the inode freed exactly if that is committed; that is the close step of its number's life |
| `Orphans.Recover` | LibFS/kfs_core_api.c:24-54 | after a crash nothing is open and exactly the marked inodes are freed: the crash step of every number's life |
| `Orphans.Inodes.StoredWhileNeeded` | Async/kfs_coroutine_core.cpp:832-864 | whatever has been called on whatever inodes, one is stored if and only if it is named or waits for a last close, and, while its handles are sound, if and only if a name or the coordinator's count needs it |
| `Dentries.Directory.Find` | Async/kfs_coroutine_core.cpp:907-1006 | with any state of the cache, and inodes that have vanished or cannot be read, finds exactly an entry on disk whose inode is there, EIO exactly for one that cannot be read, and keeps cache and directory in agreement |
| `Dentries.Directory.Scan` | Async/kfs_coroutine_core.cpp:907-1006 | the scan that fills the cache answers exactly what the slots say and leaves the cache in agreement, complete only when every name went in |
| `Dentries.Directory.CacheDentry` | Async/namespace_coordinator.cpp:241-265 | caching the entry a name has on disk makes the cache right about that name, with room or without, and keeps it right about all others |
| `Dentries.Directory.EraseDentry` | Async/namespace_coordinator.cpp:279-300 | erasing a name that is not on disk makes the cache right about it and keeps it right about all others |
| `Dentries.Directory.constructor` | Async/kfs_coroutine_core.cpp:1135-1191 | a new directory has its two fixed entries, cached as far as there is room |
| `Dentries.Directory.FreeSlot` | Async/kfs_coroutine_core.cpp:1092-1115 | the first free slot after the two fixed ones, or the end |
| `Dentries.Directory.IsEmpty` | Async/kfs_coroutine_core.cpp:1384-1406 | empty exactly when nothing but the two fixed entries is used |
| `Dentries.Directory.Insert` | Async/kfs_coroutine_core.cpp:1117-1191 | succeeds exactly for a name that is not found, which then resolves to its inode, all other names as before; cache and directory agree unless the name had an entry without inode, which the lookup takes for none |
| `Dentries.Directory.Delete` | Async/kfs_coroutine_core.cpp:1423-1514 | removes exactly a found name of the expected inode and kind, a directory only when empty, when the commit succeeds, with each error exact; it then resolves to nothing, all others as before |
| `Dentries.RenameWithin` | Async/kfs_coroutine_core.cpp:1717-1808 | in place or into the replaced slot; one clause per refusal, ENOTDIR, EISDIR, ENOTEMPTY after a scan of the replaced directory, or a name for the same inode, each changing no slot; else the old name is gone, the new one leads to the inode, every other name as before, in the slots and in the cache |
| `Dentries.RenameAcross` | Async/kfs_coroutine_core.cpp:1717-1808 | the same refusals, each changing no slot of any directory; else the name leaves one directory, leads to its inode in the other, the moved directory has its new parent behind "..", every other name of the three as before |
| `Dentries.CheckAcross` | Async/kfs_coroutine_core.cpp:1717-1780 | the checks stop with exactly the answer of the first one that fails, and change no slot |
| `Dentries.CheckNames` | Async/kfs_coroutine_core.cpp:1717-1772 | the checks all renames share, one clause each, from the found entries and the scan of the replaced directory |
| `Dentries.CommitRename` | Async/kfs_coroutine_core.cpp:1605-1715 | the three slot writes, then erase and the two caches, leave all three directories in agreement with their caches |
| `Dentries.RewrittenLookup` | Async/kfs_coroutine_core.cpp:1634-1672 | rewriting a used slot takes one name out, puts one in and changes no other lookup |
| `Dentries.RenamedLookup` | Async/kfs_coroutine_core.cpp:1782-1788 | the same for a rename inside one directory, replacing or not |
| `Dentries.InsertedUniqueExactly` | Async/kfs_coroutine_core.cpp:1117-1191 | an entry in a free slot keeps the names unique if and only if its name is new |
| `Dentries.InsertedLookup` | Async/kfs_coroutine_core.cpp:1117-1191 | an entry put into a free slot keeps names unique and changes one lookup |
| `Dentries.FreedLookup` | Async/kfs_coroutine_core.cpp:1423-1514 | freeing a slot keeps names unique and changes one lookup |
| `Dentries.LookupIs` | Async/kfs_coroutine_core.cpp:907-1006 | with unique names the first match is the entry |
| `IpcRing.Ring.constructor` | Async/ipc_transport.cpp:440-454 | a fresh ring has nothing sent, held or received |
| `IpcRing.Ring.TryReserve` | Async/ipc_transport.cpp:404-426 | reserves the next position exactly when the one a lap back is done with |
| `IpcRing.Ring.Publish` | Async/ipc_transport.cpp:903-932 | publishes a reservation in any order without disturbing another |
| `IpcRing.Ring.TryPush` | Async/ipc_transport.cpp:267-308 | sends exactly when there is room, else changes nothing |
| `IpcRing.Ring.TryAcquire` | Async/ipc_transport.cpp:361-402 | delivers the message of the next position exactly when it is published; what was received is always the messages sent, in order, without gap or repeat |
| `IpcRing.Ring.GiveBack` | Async/ipc_transport.cpp:847-853 | returns one held slot, in any order |
| `IpcRing.ReserveBlocksExactly` | Async/ipc_transport.cpp:404-426 | the generation test refuses exactly while the position a lap back is reserved, unread or held |
| `IpcRing.ReserveKeeps` | Async/ipc_transport.cpp:404-426 | no live message is overwritten by a reservation |
| `IpcRing.PublishKeeps` | Async/ipc_transport.cpp:903-932 | publishing keeps every slot in step with its history |
| `IpcRing.AcquireInOrder` | Async/ipc_transport.cpp:361-402 | the generation test is passed exactly by a published next message, and its slot still holds it |
| `IpcRing.AcquireKeeps` | Async/ipc_transport.cpp:361-402 | taking a message keeps the ring in step |
| `IpcRing.ReleaseKeeps` | Async/ipc_transport.cpp:847-853 | giving a slot back keeps the ring in step |
| `IpcRing.FreshOk` | Async/ipc_transport.cpp:440-454 | an initialised ring of two slots or more is in step |
| `IpcRing.SlotIsRemainder` | Async/ipc_transport.cpp:404-426 | going round the ring is the remainder by the capacity |
| `IpcRing.OneSlotOverwrites` | Async/ipc_transport.cpp:112-116 | why a ring of one slot is refused: an unread message would look like a free slot |
| `Bitmap.BitChanges` | KernelFS/balloc.c:287-296 | setting or clearing a bit of the bytes changes that bit and no other |
| `Bitmap.ClearUndoesSet` | KernelFS/balloc.c:370-396 | freeing what was claimed restores the bytes |
| `Bitmap.CountChanges` | KernelFS/balloc.c:287-296 | the count of used bits moves by exactly one |
| `Bitmap.PersistedIsLastSaid` | KernelFS/balloc.c:161-177 | after any list of persisted changes every bit is what the last change to it said |
| `Bitmap.ReplayedAgree` | KernelFS/balloc.c:179-195 | memory and device agree after a replay on every bit that was changed or agreed before |
| `Bitmap.CountByte` | KernelFS/balloc.c:197-209 | the ones of a byte are its share of the count |
| `Bitmap.Images.PersistChange` | KernelFS/balloc.c:161-177 | one durable bit changes, exactly for a block in range |
| `Bitmap.Images.ReplayChange` | KernelFS/balloc.c:179-195 | the same bit changes in memory and on the device, exactly for a block in range |
| `Bitmap.Images.RecomputeCount` | KernelFS/balloc.c:197-209 | the sum over the bytes is the number of set bits |
| `Bitmap.Images.Replay` | LibFS/lib_log.c:492-562 | after replaying a journal every bit, in memory and on the device, is what its last change said, and the count is right |
| `Bitmap.Images.NextAllocated` | KernelFS/balloc.c:211-225 | the first set bit behind the given one, or none exactly if there is none |
| `Bitmap.ShardBounds` | KernelFS/balloc.c:298-307 | every worker's shard is a range inside the map |
| `Bitmap.ShardsTile` | KernelFS/balloc.c:298-307 | every bit lies in exactly one shard |
| `Bitmap.RoundVisitsOnce` | KernelFS/balloc.c:310-335 | a scan that goes round visits no position twice |
| `Bitmap.Allocator.Claim` | KernelFS/balloc.c:287-296 | on its own, claims exactly a free bit and counts it |
| `Bitmap.Allocator.ScanOwn` | KernelFS/balloc.c:310-320 | on its own, claims a free bit, or the worker's shard is full |
| `Bitmap.Allocator.ScanOthers` | KernelFS/balloc.c:321-335 | on its own, claims a free bit, or the whole map is full |
| `Bitmap.Allocator.AllocateOne` | KernelFS/balloc.c:298-335 | on its own, from any cursor and shard, fails only when every bit is used |
| `Bitmap.Allocator.Alloc` | KernelFS/balloc.c:345-368 | on its own, succeeds exactly when enough bits are free, with distinct fresh bits; a failure changes no bit |
| `Bitmap.Allocator.GiveBack` | KernelFS/balloc.c:345-368 | on its own, undoing a partial allocation restores map and count |
| `Bitmap.Allocator.Dealloc` | KernelFS/balloc.c:370-396 | on its own, frees exactly a used bit in range and tells the two errors apart |
| `SharedBitmap.NothingHandedOutTwice` | KernelFS/balloc.c:345-368 | in every interleaving of the atomic operations of many calls, an allocation that returns has as many bits as it asked for, all different, none of them with a holder or another call |
| `SharedBitmap.OwnShardFirst` | KernelFS/balloc.c:298-320 | in every interleaving a call tries the bits of its worker's shard first |
| `SharedBitmap.CallsAreWaitFree` | KernelFS/balloc.c:287-396 | every call ends after a bounded number of its own steps, whatever the others do |
| `SharedBitmap.NoCallIsStuck` | KernelFS/balloc.c:287-396 | the next step of a call is always possible |
| `SharedBitmap.FailureLeavesTheOthers` | KernelFS/balloc.c:345-368 | in every interleaving, when an allocation has failed the set bits are exactly those of the holders and of the other calls |
| `SharedBitmap.QuietCounterIsExact` | KernelFS/balloc.c:287-296 | in every interleaving, whenever no call is between its two atomic operations the counter is the number of set bits |
| `SharedBitmap.StepKeepsInv` | KernelFS/balloc.c:287-396 | every atomic operation keeps it that a bit is set exactly while one call or holder has it, and that the counter lags by exactly the calls in between |
| `SharedBitmap.NoSpaceMeansEveryBitWasTaken` | KernelFS/balloc.c:298-335 | a search that gives up, whoever else claims and frees, had for every bit of the map a moment at which it was taken |
| `SharedBitmap.GivesUpAfterEveryBit` | KernelFS/balloc.c:310-335 | a search gives up only after it has found every bit taken |
| `SharedBitmap.TriesEachBitOnce` | KernelFS/balloc.c:310-335 | no search tries a bit twice |
| `SharedBitmap.UninterruptedClaim` | KernelFS/balloc.c:287-296 | with nobody in between, the two operations of a claim are what the claim says |
| `BatchAwaiter.AppendMerged` | Async/block_device.cpp:69-94 | merges exactly adjacent requests within the limit and never changes which byte goes where |
| `BatchAwaiter.ResumedExactlyOnce` | Async/block_device.cpp:153-340 | in every interleaving of submission and completion the coroutine is resumed once, after the last request; its error is the first one of the run, and without one every byte is counted |
| `BatchAwaiter.NoErrorExactly` | Async/block_device.cpp:293-340 | there is no error exactly if every submission and every completion succeeded in full |
| `BatchAwaiter.RestsExactlyWhenOver` | Async/block_device.cpp:153-340 | a batch can rest exactly when it is over |
| `BatchAwaiter.StepsRunOut` | Async/block_device.cpp:153-340 | every step brings the batch nearer to its end |
| `BatchAwaiter.StepKeepsInv` | Async/block_device.cpp:293-340 | every step keeps the counter equal to what is in flight plus the sentinel |
| `RuntimeClose.FinalCloseKeepsEveryAnswer` | Async/runtime.cpp:562-589 | in every run, at a final close and ever after: every schedule call of the run that succeeded had its item resumed exactly once and finished, every root taken in has completed, and nothing is accepted, resumed or completed any more |
| `RuntimeClose.LogIsTold` | Async/runtime.cpp:1147-1192 | the record of answers is the one the events of the run make |
| `RuntimeClose.QuietClose` | Async/runtime.cpp:562-589 | after a stop request with nothing under way the closing worker gets to the final close |
| `RuntimeClose.SubmissionGoesThrough` | Async/runtime.cpp:919-977 | while roots are accepted a submission gets to its schedule call |
| `RuntimeClose.CallGoesThrough` | Async/runtime.cpp:1147-1192 | while the runtime is not closed a schedule call succeeds |
| `RuntimeClose.FailuresAreUndone` | Async/runtime.cpp:919-977 | a submission or a schedule call that fails, wherever it fails, can be undone and leaves no trace |
| `RuntimeClose.QueuedCanRun` | Async/runtime.cpp:690-713 | an item of a worker that has not left can be resumed and finished |
| `RuntimeClose.FinalStays` | Async/runtime.cpp:1147-1192 | a final close stays final in every run and the record of answers stays as it is |
| `RuntimeClose.LeftWorkerStrandsExactlyUntilSettled` | Async/runtime.cpp:708-713 | a worker that has left can still be handed an item nobody runs if and only if the close is neither final nor past its second look at the submitters with no schedule call under way |
| `RuntimeClose.StrandedForGood` | Async/runtime.cpp:685-715 | a stranded item is never run and keeps every later close from becoming final |
| `RuntimeClose.StepKeepsInv` | Async/runtime.cpp:919-983 | every step keeps the three counters exact, and after the first look at the submitters no root is taken in any more |
| `RuntimeClose.StrandedRunExists` | Async/runtime.cpp:708-713 | a run from the start, with no call and no submission under way, from which a refused late submission strands an item |
| `Journal.CommittedWholeOrNotAtAll` | LibFS/lib_log.c:519-572 | over every run of commits and crashes at any point, whenever the journal is idle the metadata is the writes handed to it in the committed transactions, whole and in order, with numbers unbroken |
| `Journal.RecoveryCompletes` | LibFS/lib_log.c:519-572 | from every state the journal gets to rest without another crash, with the committed transactions in place |
| `Journal.TransactionGoesThrough` | LibFS/lib_log.c:748-785 | an idle journal carries every transaction that fits through |
| `Journal.CrashThenRecovery` | LibFS/lib_log.c:519-572 | after a crash at any moment recovery brings back exactly what was committed |
| `Journal.RedoIsLastWritten` | LibFS/lib_log.c:492-517 | a cell after a redo is what the last write to it said |
| `Journal.RunCommits` | LibFS/lib_log.c:748-785 | the same from any state with the invariant |
| `Journal.StepKeepsInv` | LibFS/lib_log.c:748-785 | after every step recovery would give the committed state |
| `Journal.RedoIsIdempotent` | LibFS/lib_log.c:492-517 | redo over any half-applied image gives the fully applied one |
| `Journal.ApplyKeeps` | LibFS/lib_log.c:492-517 | applying one record of a frame does not change what recovery gives |
| `Journal.CheckpointKeeps` | LibFS/lib_log.c:241-272 | a torn checkpoint leaves the latest one in force, a finished one replaces it |

## Left out

- Index tree: interior and leaf nodes of the block index and its depth limit; the index is a list of blocks and a count of free nodes.
- Interleaving of preparation and planning: the source prepares and plans block by block in one loop, the model first prepares all blocks and then plans; each block's plan depends on that block only.
- Stable overwrites and reads take mappings from the index; that the extent snapshot gives the same is stated separately in `ExtentCoherence`.
- Reads gather all SSD requests into one batch in the source; the model reads block by block, and the media do not change during a read.
- Directory data written through an outer transaction, and error returns for wrong inode types.
- Failed commands inside `NvmeWrites`: a command that has failed is taken to write nothing any more; failed flushes.
- FileStore.InFlight: lands whole requests of the early batch; that tearing them byte by byte makes no difference is `PlanOrder.PipelineIsInvisible`.
- FileStore.Store.Truncate: the journal commit of a shrink succeeds.
- Ledger: counts pages, SSD blocks and segment tables; index nodes are counted by `Draft.Spent` instead.
- Bitmap.Allocator.Claim: the class is one call on its own, as are the next six; many calls at once, one atomic operation at a time, are `SharedBitmap`.
- Bitmap.Allocator.ScanOwn: on its own.
- Bitmap.Allocator.ScanOthers: on its own.
- Bitmap.Allocator.AllocateOne: on its own.
- Bitmap.Allocator.Alloc: on its own.
- Bitmap.Allocator.GiveBack: on its own.
- Bitmap.Allocator.Dealloc: on its own.
- SharedBitmap: only bits that are held are freed; freeing a bit that another call owns is outside the contract of the callers.
- Migration between the media and its queue.
- Allocation failures (ENOMEM), coroutine yields, pinning and statistics.
- Bounds of 64-bit counters in ring positions and scan cursors; memory ordering: steps of the state machines are atomic and seen in order.
- Journal: checksums are taken to identify a whole record, a torn commit record is no record, and errors after the commit record are not modelled.
- IPC descriptors: validation, stale sessions, abandoned slots, the layout of shared memory, sockets and wake-ups.
- Range check of the block distance in the extent lookup, and the fallback that rebuilds a snapshot when the sizes disagree.
- Bounds that no caller sees: the size from which the early pipeline is used, the number of entries of a segment table behind its twelve segments, the code of the directory type, the address that stands for a missing page.
- RenameTree: regular files, name lengths and path resolution; a rename that fails midway.
- Orphans: the server holds a handle's own lock while it opens relative to it; that this keeps the handle's directory from a last close is not stated.
- ExtentCoherence.EveryRunIsCoherent: stated for runs whose aborts are safe, because without that it is false (`ExtentCoherence.UnsafeAbortExists`); a journal commit that fails after it has moved the size is not modelled.
- Dentries: sharding of the maps by hash, and slots with a bad name length.
- RuntimeClose: the running and joined flags, parking and wake-ups; a root completes at any time after its first resumption.
- LockOrder: that an operation which can release a lock does so is up to the callers.
- stat, statfs, permissions and timestamps; clients, servers and the preload library.
