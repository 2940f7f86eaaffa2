# RecyclerSweep: the sweep session of ChakraCore's Recycler

ChakraCore's garbage collector, the Recycler, sweeps each collection through a
`RecyclerSweep` session. This project models that session and proves
properties of the model in Dafny.

- **Attaching the session.** `BeginSweep` zeroes the session and attaches it
  to the recycler. It flushes disposed objects back to the heap and takes every
  "new heap block" list out of the heap. There is one such list for each block
  kind (leaf, normal, finalizable, normal-with-barrier,
  finalizable-with-barrier) and tier (small, medium).
- **Choosing the next collection.** `BeginSweep` then decides whether the next
  collection runs in partial mode. A partial collect rescans only what changed.
- **During sweep.** The pending new blocks are merged into the buckets for
  their object sizes. Buckets report allocated, freed, reused and unused bytes
  to the session.
- **Finishing.** `FinishSweep` re-runs the partial-collect heuristic, which
  decides whether partial mode continues and how many new pages the next
  partial collect may wait for. `EndSweep` folds the survivors' bytes back into
  the heap's total and detaches the session. `ShutdownCleanup` frees the
  blocks in the session's lists when the recycler is torn down mid-sweep. As
  written, the source skips one kind of list: the normal-with-barrier
  pending-sweep lists are not freed.

The project has five modules:

- `Wrappers` (`wrappers.dfy`): `Option`.
- `PartialHeuristic` (`partial_heuristic.dfy`): the constants of the file and
  the two decision procedures as pure functions. `DoPartialCollectMode` is the
  gate before sweep. `AdjustPartialHeuristics` is the heuristic after sweep:
  efficacy floor, rescan recheck, pressure, new-page threshold and budget
  check. The lemmas give its rejection conditions, its bounds and its
  monotonicity.
- `HeapBlocks` (`heap_blocks.dfy`): block kinds and tiers, and a `HeapBlock`
  class with the per-block byte counters the session reads and clears. It also
  holds the buckets, keyed by block type and object size, with the merge of a
  new block into its bucket.
- `Sweep` (`sweep.dfy`): the `Recycler` class holds the recycler and heap
  fields the session touches. The `RecyclerSweep` class holds the session, with
  one method per operation of the source. Each method's `ensures` gives the new
  values of the fields it may modify in terms of the old state. The ghost predicate `Valid` is the session
  invariant: the accounting order `last <= next <= partial` and the ceilings
  checked before sweep.
- `SweepScenarios` (`sweep_scenarios.dfy`): whole cycles on concrete
  recyclers, each checked with assertions:
  - a full collect entering partial mode;
  - a costly rescan staying full;
  - a sweep that frees nothing leaving partial mode;
  - new blocks reaching their buckets;
  - byte accounting during a partial sweep;
  - reuse counting skipping leaf blocks;
  - an approved empty sweep keeping partial mode, and the 17 MB of unused
    free bytes it leaves ending partial mode at the next BeginSweep.

All paths below are relative to the repository root. The source is
`lib/Common/Memory/RecyclerSweep.cpp`.

## Model

| member | source | states |
|---|---|---|
| PartialHeuristic.ConstantValues | lib/Common/Memory/RecyclerSweep.cpp:8-23 | The new-page floor is 1024 pages (4 MB of 4 KB pages). The rescan ceiling is 5 MB, the rescan floor 128 KB and the unused-free-bytes ceiling 16 MB. The efficacy floor is 1/10. |
| PartialHeuristic.DoPartialCollectMode | lib/Common/Memory/RecyclerSweep.cpp:632-648 | Disabled partial collect rejects. More than 16 MB of unused free bytes rejects. Otherwise the answer is exactly "rescan estimate at most 5 MB". |
| PartialHeuristic.OversizedRescanRejects | lib/Common/Memory/RecyclerSweep.cpp:647 | A rescan estimate over 5 MB rejects partial mode, whatever the other inputs. |
| PartialHeuristic.CollectEfficacy | lib/Common/Memory/RecyclerSweep.cpp:664-687 | Efficacy is in [0, 1] and is 1 when nothing was allocated. It is below the 10% floor exactly when 10 * freed < allocated. |
| PartialHeuristic.ScaledEfficacy | lib/Common/Memory/RecyclerSweep.cpp:689-693 | The rescaled efficacy stays in [0, 1]. The floor maps to 0 and full efficacy maps to 1. |
| PartialHeuristic.CostEfficacyRatio | lib/Common/Memory/RecyclerSweep.cpp:716-725 | c * e + (1 - e) is in [0, 1]. It is at least 1 - e, and it is 1 when efficacy is 0. |
| PartialHeuristic.Blend | lib/Common/Memory/RecyclerSweep.cpp:738-743 | x * (1 - w) + w stays in [0, 1] and is at least both x and w. The pressure and the pressured ratio therefore never leave [0, 1]. |
| PartialHeuristic.AdjustedEfficacy | lib/Common/Memory/RecyclerSweep.cpp:664-693 | The efficacy used after the floor check is in [0, 1]. It is 1 when nothing was allocated. |
| PartialHeuristic.ReuseMinFreeBytes | lib/Common/Memory/RecyclerSweep.cpp:667-694 | The reuse minimum is at most one page. It is 0 when nothing was allocated ("reuse all pages"). |
| PartialHeuristic.EstimatedPartialReuseBytes | lib/Common/Memory/RecyclerSweep.cpp:703-704 | The estimate is at most one page per reused block, and 0 at full efficacy. |
| PartialHeuristic.NewRescanRootBytes | lib/Common/Memory/RecyclerSweep.cpp:706 | The rechecked rescan cost is at least both the BeginSweep estimate and the reuse estimate. |
| PartialHeuristic.FullCollectPressure | lib/Common/Memory/RecyclerSweep.cpp:733-740 | The full-collect pressure of a partial collect under the trigger is in [0, 1]. |
| PartialHeuristic.HeuristicRatio | lib/Common/Memory/RecyclerSweep.cpp:716-745 | The ratio is in [0, 1], as the source asserts. It is at least the reuse ratio 1 - e. |
| PartialHeuristic.NewPageCount | lib/Common/Memory/RecyclerSweep.cpp:747-751 | The new-page threshold lies between the floor and the tuned ceiling, as asserted. Ratio 0 gives the floor and ratio 1 the ceiling. |
| PartialHeuristic.EstimatedPartialReusedFreeByteCount | lib/Common/Memory/RecyclerSweep.cpp:756 | The reused free bytes are at most the reuse byte count, and 0 at full efficacy. |
| PartialHeuristic.AdjustPartialHeuristics | lib/Common/Memory/RecyclerSweep.cpp:653-767 | See "AdjustPartialHeuristics in detail" below the table. |
| PartialHeuristic.ZeroAllocationReusesAllPages | lib/Common/Memory/RecyclerSweep.cpp:664-669 | With no bytes allocated, the floor cannot reject and efficacy counts as 1. The reuse minimum written is 0 and the reuse-block estimate is 0. |
| PartialHeuristic.EfficacyFloorRejects | lib/Common/Memory/RecyclerSweep.cpp:674-694 | Under 10% freed, the heuristic rejects with nothing written. Otherwise the reuse minimum is written. |
| PartialHeuristic.RescanRecheckRejects | lib/Common/Memory/RecyclerSweep.cpp:701-714 | A max(rescan, reuse estimate) over 5 MB rejects, and no page threshold is written. |
| PartialHeuristic.UncollectedCeilingRejects | lib/Common/Memory/RecyclerSweep.cpp:727-731 | During a partial collect, a next total over the full-collect trigger rejects, and no page threshold is written. |
| PartialHeuristic.BudgetCheckDecides | lib/Common/Memory/RecyclerSweep.cpp:747-761 | Past the first three checks, the page threshold is written. The outcome is exactly "pages * PageSize + next + reused free bytes < trigger". |
| PartialHeuristic.ApprovedIffNoRejection | lib/Common/Memory/RecyclerSweep.cpp:653-767 | The heuristic approves if and only if none of its four rejection conditions holds. |
| PartialHeuristic.PressureRaisesThreshold | lib/Common/Memory/RecyclerSweep.cpp:727-748 | Adding full-collect pressure during a partial collect never lowers the new-page threshold the same counters would give. |
| PartialHeuristic.NewPageCountMonotonic | lib/Common/Memory/RecyclerSweep.cpp:747-748 | The new-page threshold is monotonic in the ratio. |
| HeapBlocks.HeapBlock.GetAndClearUnaccountedAllocBytes | lib/Common/Memory/RecyclerSweep.cpp:599 | Returns the block's unaccounted bytes, clears them and changes nothing else. |
| HeapBlocks.HeapBlock.ClearAllAllocBytes | lib/Common/Memory/RecyclerSweep.cpp:607-610 | Clears the block's unaccounted and last-uncollected bytes and keeps its expected free bytes. |
| HeapBlocks.MergeNewHeapBlock | lib/Common/Memory/RecyclerSweep.cpp:409-410 | The block goes to the front of the bucket for its type and object size. Every other bucket is unchanged. |
| HeapBlocks.MergeAllBucket | lib/Common/Memory/RecyclerSweep.cpp:407-411 | After merging a list of one type, each bucket of that type holds its former blocks plus exactly the list's blocks of its size (as multisets). Buckets of other types are unchanged. |
| HeapBlocks.MergeAllPlacesEachBlockOnce | lib/Common/Memory/RecyclerSweep.cpp:407-411 | See "Merging a list" below the table. |
| HeapBlocks.BlocksOfSizeCount | lib/Common/Memory/RecyclerSweep.cpp:409 | Selecting a list's blocks of one object size keeps each block of that size as often as the list holds it, and no other block. |
| Sweep.DeletedStaysDeleted | lib/Common/Memory/RecyclerSweep.cpp:349-366 | Freeing further bucket lists never takes back a block already freed. |
| Sweep.ShutdownDeletesBucketBlock | lib/Common/Memory/RecyclerSweep.cpp:349-366 | A block is freed by the bucket loop if it is in any of these lists of a bucket below the count: the normal, finalizable or finalizable-with-barrier pending-sweep lists, or the leaf, normal or normal-with-barrier empty-block lists. |
| Sweep.BackgroundIgnoresWriteWatch | lib/Common/Memory/RecyclerSweep.cpp:201-219 | On the background thread partial mode continues exactly when the heuristic approves. In the foreground an approved sweep continues exactly when the write-watch reset succeeded. |
| Sweep.Recycler.FinishPartialCollect | lib/Common/Memory/RecyclerSweep.cpp:141-150 | Leaves partial mode with the partial total at 0. These are the two facts BeginSweep asserts after the call (lines 147-149). |
| Sweep.Recycler.BackgroundFinishPartialCollect | lib/Common/Memory/RecyclerSweep.cpp:229-238 | The background thread's way of leaving partial mode, with the same effect on the modelled fields. |
| Sweep.Recycler.SweepPartialReusePages | lib/Common/Memory/RecyclerSweep.cpp:197 | The heap's unused partial-collect free bytes become the total the heap computes while sweeping the reused pages, given as the argument. Nothing else changes. |
| Sweep.Recycler.ResetHeuristicCounters | lib/Common/Memory/RecyclerSweep.cpp:153-159 | After a partial collect the uncollected bytes restart from 0. |
| Sweep.Recycler.ResetPartialHeuristicCounters | lib/Common/Memory/RecyclerSweep.cpp:161-168 | After a full collect the partial heuristic's unused free bytes restart from 0. |
| Sweep.Recycler.TransferDisposedObjects | lib/Common/Memory/RecyclerSweep.cpp:333 | Clears the pending-transfer flag. |
| Sweep.Recycler.DeleteHeapBlockList | lib/Common/Memory/RecyclerSweep.cpp:342-384 | Appends the list's blocks to the blocks freed so far. |
| Sweep.Recycler.DeleteEmptyHeapBlockList | lib/Common/Memory/RecyclerSweep.cpp:360-390 | Appends the empty-block list's blocks to the blocks freed so far. |
| Sweep.RecyclerSweep.GetNewObjectAllocBytes | lib/Common/Memory/RecyclerSweep.cpp:769-775 | Requires partial mode and partial >= last. The new bytes are at most the partial total, and 0 exactly when nothing came after the carried-over total. |
| Sweep.RecyclerSweep.GetNewObjectFreeBytes | lib/Common/Memory/RecyclerSweep.cpp:777-783 | Requires partial mode and partial >= next. The freed bytes are at most the partial total. Under last <= next they are at most the new bytes, which is the assert at line 676. |
| Sweep.RecyclerSweep.Stats | lib/Common/Memory/RecyclerSweep.cpp:664-676 | The counters handed to the heuristic satisfy freed <= allocated. |
| Sweep.RecyclerSweep.Zero | lib/Common/Memory/RecyclerSweep.cpp:50 | After the memset every list, flag and counter of the session is empty or zero, and no recycler is attached. |
| Sweep.RecyclerSweep.BeginSweep | lib/Common/Memory/RecyclerSweep.cpp:34-169 | See "BeginSweep in detail" below the table. |
| Sweep.RecyclerSweep.Attach | lib/Common/Memory/RecyclerSweep.cpp:47-110 | Zeroes and attaches the session, flushes disposed objects, and moves the new-block lists into the session, leaving the heap's empty. |
| Sweep.RecyclerSweep.TakeNewHeapBlockLists | lib/Common/Memory/RecyclerSweep.cpp:63-110 | The session's pending-merge lists are the heap's former new-block lists. Every heap list is empty. |
| Sweep.RecyclerSweep.SetupPartialCollect | lib/Common/Memory/RecyclerSweep.cpp:113-168 | The rescan estimate is recorded. Partial mode is on exactly when DoPartialCollectMode approves, with the totals set as in BeginSweep, and otherwise the recycler leaves partial mode with a zero total. The counter the collection calls for is reset, and Valid holds. |
| Sweep.RecyclerSweep.FlushPendingTransferDisposedObjects | lib/Common/Memory/RecyclerSweep.cpp:324-335 | Requires what the source asserts before transferring. Afterwards no transfer is pending. |
| Sweep.RecyclerSweep.StartPartialCollectMode | lib/Common/Memory/RecyclerSweep.cpp:546-587 | See "StartPartialCollectMode in detail" below the table. |
| Sweep.RecyclerSweep.AdjustPartialHeuristics | lib/Common/Memory/RecyclerSweep.cpp:653-767 | Requires what the source asserts on entry (lines 655-662). Returns the pure heuristic's verdict on the session's counters. Writes the reuse minimum and the page threshold exactly when the heuristic reached them. On approval both are within their bounds. |
| Sweep.RecyclerSweep.FinishSweep | lib/Common/Memory/RecyclerSweep.cpp:171-253 | Outside partial mode nothing changes. In partial mode the heuristic decides, and the reuse-page sweep (line 197) runs only on approval: the unused free bytes become that sweep's total then and are unchanged otherwise. See "FinishSweep in detail" below the table. |
| Sweep.RecyclerSweep.EndSweep | lib/Common/Memory/RecyclerSweep.cpp:255-281 | After a partial collect the next total is added back to the heap's uncollected bytes. Otherwise they are unchanged. The session is detached. |
| Sweep.RecyclerSweep.BeginBackground | lib/Common/Memory/RecyclerSweep.cpp:468-474 | Requires not background. Afterwards background is the negation of the force-foreground flag, which is set, so a background sweep is set up. |
| Sweep.RecyclerSweep.EndBackground | lib/Common/Memory/RecyclerSweep.cpp:476-481 | Requires a background sweep to be set up. It clears background. |
| Sweep.RecyclerSweep.BackgroundSweep | lib/Common/Memory/RecyclerSweep.cpp:284-303 | The new state is exactly FinishSweep's, clause by clause, with the sweep counted as background unless forced to the foreground. Background is clear afterwards and the force-foreground flag is unchanged. |
| Sweep.RecyclerSweep.IsBackground | lib/Common/Memory/RecyclerSweep.cpp:312-316 | True exactly when the session is marked as running on the background thread. |
| Sweep.RecyclerSweep.HasSetupBackgroundSweep | lib/Common/Memory/RecyclerSweep.cpp:318-322 | True when the sweep is on the background thread or forced to the foreground, and only then. |
| Sweep.RecyclerSweep.SetHasPendingSweepSmallHeapBlocks | lib/Common/Memory/RecyclerSweep.cpp:462-466 | Sets the flag. |
| Sweep.RecyclerSweep.MergePendingList | lib/Common/Memory/RecyclerSweep.cpp:401-412 | Empties the pending list of one block type. The buckets become the fold of MergeNewHeapBlock over that list, front to back. |
| Sweep.RecyclerSweep.MergePendingNewHeapBlockList | lib/Common/Memory/RecyclerSweep.cpp:399-412 | The small-tier instance of MergePendingList. |
| Sweep.RecyclerSweep.MergePendingNewMediumHeapBlockList | lib/Common/Memory/RecyclerSweep.cpp:424-437 | The medium-tier instance of MergePendingList. |
| Sweep.RecyclerSweep.AddUnaccountedNewObjectAllocBytes | lib/Common/Memory/RecyclerSweep.cpp:590-611 | See "AddUnaccountedNewObjectAllocBytes in detail" below the table. |
| Sweep.RecyclerSweep.SubtractSweepNewObjectAllocBytes | lib/Common/Memory/RecyclerSweep.cpp:617-625 | Requires partial mode and the two asserted bounds, including next >= last + n. Subtracts n from next only, and keeps Valid. |
| Sweep.RecyclerSweep.NotifyAllocableObjects | lib/Common/Memory/RecyclerSweep.cpp:797-807 | The block's expected free bytes are added to the reuse bytes. The reuse block count grows by one unless the block is a leaf block. Valid is kept. |
| Sweep.RecyclerSweep.AddUnusedFreeByteCount | lib/Common/Memory/RecyclerSweep.cpp:812-816 | Adds its argument to the unused free byte count, and keeps Valid. |
| Sweep.RecyclerSweep.DeleteTierLists | lib/Common/Memory/RecyclerSweep.cpp:342-366 | See "DeleteTierLists in detail" below the table. |
| Sweep.RecyclerSweep.ShutdownCleanup | lib/Common/Memory/RecyclerSweep.cpp:337-396 | Requires the lists the source asserts empty to be empty. Frees the small tier's lists, then the medium tier's. |

**AdjustPartialHeuristics in detail** (`PartialHeuristic.AdjustPartialHeuristics`):
- The reuse minimum that is written is at most one page.
- The page threshold that is written is between the floor and the ceiling, and a ratio in [0, 1] is computed with it.
- The page threshold is written only after the reuse minimum.
- Approval implies the page threshold was written and that pages * PageSize + next < the full-collect trigger.

**Merging a list** (`HeapBlocks.MergeAllPlacesEachBlockOnce`):
- Each block of a merged list appears in the bucket for its type and size as many more times as the list holds it, and no more times in any other bucket.
- So no block is lost or duplicated.

**BeginSweep in detail** (`Sweep.RecyclerSweep.BeginSweep`):
- It requires:
  - no sweep running and no session attached (asserts at lines 47-48);
  - the dispose asserts;
  - the two partial-total asserts at lines 119-120.
- The session is attached and no disposed-object transfer is pending.
- The session holds the heap's former new-block lists and the heap's lists are empty.
- Every remaining list, flag and reuse counter is zero.
- Partial mode is on exactly when DoPartialCollectMode approves the recorded rescan estimate. The partial-heuristics flag is on only then.
- If approved:
  - the previous partial total is carried over;
  - next and partial both become the uncollected bytes, plus the previous cycle's bytes after a full collect.
- If rejected, all three totals are 0.
- After a partial collect the uncollected bytes restart from 0. After a full collect the unused free bytes do.
- Valid holds.

**StartPartialCollectMode in detail** (`Sweep.RecyclerSweep.StartPartialCollectMode`):
- It requires the asserts at lines 558 and 562.
- It records whether the collection was partial, and turns partial mode on.
- The carried-over total becomes the former partial total.
- Next and partial both become the uncollected bytes, plus the previous cycle's bytes after a full collect.
- last <= next <= partial holds.

**FinishSweep in detail** (`Sweep.RecyclerSweep.FinishSweep`):
- Outside partial mode nothing changes.
- In partial mode:
  - the reuse minimum and page threshold are what AdjustPartialHeuristics wrote;
  - partial mode continues exactly when the heuristic approves and, in the foreground, the write-watch reset succeeded;
  - partial collect is disabled for good exactly on an approved foreground sweep whose reset failed;
  - the partial total becomes next, if partial mode continues after a partial collect; otherwise it becomes 0;
  - on approval the reuse-page sweep runs, and the unused free bytes become the total it records (the `reuseUnusedFreeBytes` parameter), even if the write-watch reset then fails;
  - on rejection the reuse-page sweep does not run, and the unused free bytes are unchanged.
- `Sweep.RecyclerSweep.BackgroundSweep` ends in the same state, with "background" meaning "not forced to the foreground".

**AddUnaccountedNewObjectAllocBytes in detail** (`Sweep.RecyclerSweep.AddUnaccountedNewObjectAllocBytes`):
- In partial mode:
  - the block's unaccounted bytes are cleared;
  - the same amount is added to the recycler's partial total, to next and to the block's last-uncollected bytes;
  - the block's expected free bytes are unchanged.
- Outside partial mode:
  - the block's tracking is cleared;
  - both totals are unchanged.
- In both cases Valid is kept.

**DeleteTierLists in detail** (`Sweep.RecyclerSweep.DeleteTierLists`):
- It requires the lists the source asserts empty to be empty.
- The freed blocks are the former ones, then the five pending-merge lists of the tier, then for each bucket in order:
  - its normal, finalizable and finalizable-with-barrier pending-sweep lists;
  - its leaf, normal and normal-with-barrier empty-block lists.

## Left out

- **Collaborators.** The recycler's own operations that the session calls are
  modelled only by their effect on the fields modelled here. This applies to
  FinishPartialCollect, BackgroundFinishPartialCollect, ResetHeuristicCounters,
  ResetPartialHeuristicCounters, TransferDisposedObjects, DeleteHeapBlockList,
  DeleteEmptyHeapBlockList and the bucket's MergeNewHeapBlock. Their other
  work, such as returning pages to the page allocator, is not part of this
  model.
- **Callbacks and sweep phases.** These calls are left out because they belong
  to other parts of the recycler and the model has no state for them:
  - `PreSweepCallback` (line 44);
  - `SweepPendingObjects` (250);
  - `SweepSmallNonFinalizable` (290);
  - `FinishConcurrentSweep` (298);
  - `heapBlockMap.Cleanup` (280).
- **The reuse-page sweep.** `SweepPartialReusePages` (line 197) is modelled by
  its effect on the heap's unused partial-collect free bytes. The total it
  computes is a parameter of FinishSweep and BackgroundSweep. How the heap
  computes it, including its read of the session through
  `GetPartialUnusedFreeByteCount`, is not part of this model.
- **Write watch.** Resetting write watch on the two page allocators
  (207-208) is not modelled. Its outcome is the `writeWatchReset` parameter of
  FinishSweep and BackgroundSweep. A build without write watch, or with the
  software write barrier forced, behaves as `writeWatchReset == true`.
- **Concurrent collection.** `partialConcurrentNextCollection` (line 764)
  depends on the recycler's flag table, which is not part of this model.
- **The empty client-tracked list.** BeginSweep's assert that the
  client-tracked object list is empty (line 113) is left out, because that list
  is not modelled.
- **Threads.** BackgroundSweep runs on a background thread. The model has no
  threads or interleavings, only the background and force-foreground flags.
- **Floating point.** The heuristic's `double` arithmetic is modelled over
  `real`, and the `(size_t)` casts as `.Floor`. The efficacy floor is then
  exactly "10 * freed < allocated", whereas the source compares against the
  double nearest 0.1, which is slightly above 1/10. Page counts can therefore
  differ by rounding on inputs near a boundary.
- **Integer widths.** The source's `size_t` and `uint` counters are unbounded
  `nat`, so no wrap-around is modelled. The `uint` that carries a block's
  unaccounted bytes (line 599) is also unbounded.
- **Page size.** The page size is the constant 4096, the target's `PAGESIZE`.
  The source reads `AutoSystemInfo::PageSize` at run time.
- **Tuning.** The tunables `MaxUncollectedAllocBytesPartialCollect` and
  `MaxPartialUncollectedNewPageCount` are constant parameters of the Recycler.
  They come from the global `RecyclerHeuristic` object. The bucket counts,
  which come from `HeapConstants`, are constant parameters too.
- **Build variants.** Partial GC, concurrent GC and write barriers are taken
  as built in. The `RECYCLER_VISITED_HOST` block kind is left out, since it is
  only an extra list handled like the others.
- **Debug-only members.** `HasPendingNewHeapBlocks` and
  `SetPendingMergeNewHeapBlockCount` (483-530) are left out.
- **Trivial accessors.** `GetRecycler`, `InPartialCollectMode`,
  `InPartialCollect`, `HasPendingEmptyBlocks`,
  `HasPendingSweepSmallHeapBlocks`, `GetPartialUnusedFreeByteCount`,
  `GetPartialCollectSmallHeapBlockReuseMinFreeBytes` and
  `DoAdjustPartialHeuristics` each return one field. The model reads those
  fields directly.
- **Memory-protect mode.** `IsMemProtectMode` (lines 27-30) forwards to the
  recycler's own query. The recycler's mode is not part of this model.
- **Tracing and statistics.** Tracing, ETW events and statistics
  (`RECYCLER_TRACE`, `GCETW`, `RECYCLER_STATS_SET`) are left out.
- **Linked lists.** Heap block lists are sequences, not intrusive linked
  lists.
- Sweep.RecyclerSweep.AddUnaccountedNewObjectAllocBytes: the update of the
  block's last-uncollected bytes (line 601) is debug-only in the source but is
  always applied in the model. The model's requires also restates the assert
  at line 600 over the block's bytes before they are cleared.
- Sweep.RecyclerSweep.EndSweep: the source does not check that a session is
  attached, so the model requires only that a recycler is set.
- Sweep.RecyclerSweep.Zero: the `memset` also zeroes the per-bucket data of the
  RECYCLER_VISITED_HOST kind, which is not modelled.
- Sweep.RecyclerSweep.ShutdownCleanup: as written, the source does not free
  the normal-with-barrier pending-sweep lists (lines 349-366). The model
  follows the code and states which blocks are freed, not that every held
  block is.
- Sweep.Recycler.FinishPartialCollect: only the effects the source asserts
  after the call (lines 147-149) are modelled: partial mode off and the
  partial total at 0. Its definition in the recycler is not part of this
  model, so any other effect it has, for instance on the unused free bytes, is
  not modelled and those fields are left unchanged.
- Sweep.RecyclerSweep.SetupPartialCollect: sets the session's `partial` flag
  on approval in every build. The source sets it only in debug builds (line
  133), so `Valid`'s clause `partial == recycler.inPartialCollectMode` is the
  debug-build invariant asserted at line 175.
- Sweep.Recycler.DeleteHeapBlockList: the freed blocks are kept as a
  sequence in the order freed. Their pages going back to the allocator is not
  modelled.
