/**
 * The Recycler's per-cycle sweep session (lib/Common/Memory/RecyclerSweep.cpp)
 * and the parts of the Recycler and its heap that the session reads and
 * writes.
 *
 * The session is attached to the recycler by BeginSweep, which zeroes it,
 * moves every "new heap block" list out of the heap and decides whether the
 * next collection runs in partial mode.  During sweep the buckets merge the
 * pending new blocks and report allocation and free bytes to the session.
 * FinishSweep re-runs the partial-collect heuristic, and EndSweep folds the
 * partial bytes back and detaches the session.
 *
 * The Recycler's own operations that the session calls (FinishPartialCollect,
 * ResetHeuristicCounters, TransferDisposedObjects, DeleteHeapBlockList, ...)
 * are given only the effects on the modelled fields that the session relies
 * on; their other work is not part of this model.
 */
module Sweep {
  import opened Wrappers
  import opened HeapBlocks
  import PH = PartialHeuristic

  /** One bucket of a block type, by index, for the session's per-bucket lists. */
  datatype BucketSlot = BucketSlot(bucketKind: BucketKind, index: nat)

  /**
   * FinishSweep keeps partial mode on when the heuristic approves and the
   * write-watch reset did not fail; that reset is only attempted in the
   * foreground.
   */
  predicate KeepsPartialCollectMode(approved: bool, background: bool, writeWatchReset: bool) {
    approved && (background || writeWatchReset)
  }

  /** On the background thread the write-watch outcome never decides whether partial mode continues. */
  lemma BackgroundIgnoresWriteWatch(approved: bool, writeWatchReset: bool)
    ensures KeepsPartialCollectMode(approved, true, writeWatchReset) == approved
    ensures approved ==> (KeepsPartialCollectMode(approved, false, writeWatchReset) <==> writeWatchReset)
  {
  }

  /** The list of one bucket in a per-bucket map; a missing bucket has an empty list. */
  function ListAt(lists: map<BucketSlot, seq<HeapBlock>>, k: BucketKind, i: nat): seq<HeapBlock> {
    if BucketSlot(k, i) in lists then lists[BucketSlot(k, i)] else []
  }

  /**
   * `deleted` after freeing the lists of buckets 0 .. n-1 of a tier that
   * shutdown deletes, bucket by bucket: the pending-sweep lists of normal,
   * finalizable and finalizable-with-barrier blocks, then the empty-block
   * lists of leaf, normal and normal-with-barrier blocks.
   */
  function AfterBucketListsDeleted(deleted: seq<HeapBlock>, sweep: map<BucketSlot, seq<HeapBlock>>,
                                   empty: map<BucketSlot, seq<HeapBlock>>, tier: Tier, n: nat): seq<HeapBlock>
    decreases n
  {
    if n == 0 then deleted
    else
      var i := n - 1;
      AfterBucketListsDeleted(deleted, sweep, empty, tier, i)
        + ListAt(sweep, BucketKind(Normal, tier), i)
        + ListAt(sweep, BucketKind(Finalizable, tier), i)
        + ListAt(sweep, BucketKind(FinalizableWithBarrier, tier), i)
        + ListAt(empty, BucketKind(Leaf, tier), i)
        + ListAt(empty, BucketKind(Normal, tier), i)
        + ListAt(empty, BucketKind(NormalWithBarrier, tier), i)
  }

  /** A block already deleted stays deleted while further lists are freed. */
  lemma {:induction false} DeletedStaysDeleted(deleted: seq<HeapBlock>, sweep: map<BucketSlot, seq<HeapBlock>>,
                                               empty: map<BucketSlot, seq<HeapBlock>>, tier: Tier, n: nat, b: HeapBlock)
    requires b in deleted
    ensures b in AfterBucketListsDeleted(deleted, sweep, empty, tier, n)
    decreases n
  {
    if n > 0 {
      DeletedStaysDeleted(deleted, sweep, empty, tier, n - 1, b);
    }
  }

  /** A block of one of the lists that shutdown frees, in a bucket below n, is deleted. */
  lemma {:induction false} ShutdownDeletesBucketBlock(deleted: seq<HeapBlock>, sweep: map<BucketSlot, seq<HeapBlock>>,
                                                      empty: map<BucketSlot, seq<HeapBlock>>, tier: Tier, n: nat, i: nat,
                                                      b: HeapBlock)
    requires i < n
    requires || b in ListAt(sweep, BucketKind(Normal, tier), i)
             || b in ListAt(sweep, BucketKind(Finalizable, tier), i)
             || b in ListAt(sweep, BucketKind(FinalizableWithBarrier, tier), i)
             || b in ListAt(empty, BucketKind(Leaf, tier), i)
             || b in ListAt(empty, BucketKind(Normal, tier), i)
             || b in ListAt(empty, BucketKind(NormalWithBarrier, tier), i)
    ensures b in AfterBucketListsDeleted(deleted, sweep, empty, tier, n)
    decreases n
  {
    if i < n - 1 {
      ShutdownDeletesBucketBlock(deleted, sweep, empty, tier, n - 1, i, b);
    }
  }

  class Recycler {
    /** Tunables of the global heuristic object. */
    const tuning: PH.Tuning
    /** Number of small and of medium buckets per block type. */
    const bucketCount: nat
    const mediumBucketCount: nat

    var sweeping: bool
    var recyclerSweep: RecyclerSweep?
    var enablePartialCollect: bool
    var inPartialCollectMode: bool
    var partialUncollectedAllocBytes: nat
    var uncollectedNewPageCountPartialCollect: nat

    // The heap (autoHeap).
    var uncollectedAllocBytes: nat
    var lastUncollectedAllocBytes: nat
    var unusedPartialCollectFreeBytes: nat
    /** Blocks created since the last sweep, per block type; a missing type has an empty list. */
    var newHeapBlockLists: map<BucketKind, seq<HeapBlock>>
    var buckets: Buckets
    /** Blocks handed back to the page allocator by DeleteHeapBlockList, in the order freed. */
    var deletedBlocks: seq<HeapBlock>

    // Dispose state read when flushing disposed objects.
    var hasPendingTransferDisposedObjects: bool
    var inDispose: bool
    var inResolveExternalWeakReferences: bool
    var hasDisposableObject: bool

    /** An idle recycler with partial collect enabled and nothing allocated. */
    constructor (tuning: PH.Tuning, bucketCount: nat, mediumBucketCount: nat)
      requires PH.ValidTuning(tuning)
      ensures this.tuning == tuning && this.bucketCount == bucketCount
      ensures this.mediumBucketCount == mediumBucketCount
      ensures !sweeping && recyclerSweep == null && enablePartialCollect && !inPartialCollectMode
      ensures partialUncollectedAllocBytes == 0 && uncollectedNewPageCountPartialCollect == 0
      ensures uncollectedAllocBytes == 0 && lastUncollectedAllocBytes == 0
      ensures unusedPartialCollectFreeBytes == 0
      ensures newHeapBlockLists == map[] && buckets == map[] && deletedBlocks == []
      ensures !hasPendingTransferDisposedObjects && !inDispose
      ensures !inResolveExternalWeakReferences && !hasDisposableObject
    {
      this.tuning := tuning;
      this.bucketCount := bucketCount;
      this.mediumBucketCount := mediumBucketCount;
      sweeping := false;
      recyclerSweep := null;
      enablePartialCollect := true;
      inPartialCollectMode := false;
      partialUncollectedAllocBytes := 0;
      uncollectedNewPageCountPartialCollect := 0;
      uncollectedAllocBytes := 0;
      lastUncollectedAllocBytes := 0;
      unusedPartialCollectFreeBytes := 0;
      newHeapBlockLists := map[];
      buckets := map[];
      deletedBlocks := [];
      hasPendingTransferDisposedObjects := false;
      inDispose := false;
      inResolveExternalWeakReferences := false;
      hasDisposableObject := false;
    }

    /** Leaves partial mode: the partial total is dropped. */
    method FinishPartialCollect()
      modifies this`inPartialCollectMode, this`partialUncollectedAllocBytes
      ensures !inPartialCollectMode && partialUncollectedAllocBytes == 0
    {
      inPartialCollectMode := false;
      partialUncollectedAllocBytes := 0;
    }

    /** The background thread's way of leaving partial mode; same effect on the modelled fields. */
    method BackgroundFinishPartialCollect()
      modifies this`inPartialCollectMode, this`partialUncollectedAllocBytes
      ensures !inPartialCollectMode && partialUncollectedAllocBytes == 0
    {
      inPartialCollectMode := false;
      partialUncollectedAllocBytes := 0;
    }

    /**
     * The heap sweeps the pages it reuses without a full sweep and records
     * the free bytes those pages leave unused.  How that total is computed is
     * outside this model: it is the argument.
     */
    method SweepPartialReusePages(unusedFreeBytes: nat)
      modifies this`unusedPartialCollectFreeBytes
      ensures unusedPartialCollectFreeBytes == unusedFreeBytes
    {
      unusedPartialCollectFreeBytes := unusedFreeBytes;
    }

    /** After a partial collect only survivors count towards the next full collect. */
    method ResetHeuristicCounters()
      modifies this`uncollectedAllocBytes
      ensures uncollectedAllocBytes == 0
    {
      uncollectedAllocBytes := 0;
    }

    /** After a full collect the partial heuristic counters restart. */
    method ResetPartialHeuristicCounters()
      modifies this`unusedPartialCollectFreeBytes
      ensures unusedPartialCollectFreeBytes == 0
    {
      unusedPartialCollectFreeBytes := 0;
    }

    /** The heap moves disposed objects back to the allocable lists and clears the pending flag. */
    method TransferDisposedObjects()
      modifies this`hasPendingTransferDisposedObjects
      ensures !hasPendingTransferDisposedObjects
    {
      hasPendingTransferDisposedObjects := false;
    }

    /** Frees every block of a list. */
    method DeleteHeapBlockList(list: seq<HeapBlock>)
      modifies this`deletedBlocks
      ensures deletedBlocks == old(deletedBlocks) + list
    {
      deletedBlocks := deletedBlocks + list;
    }

    /** Frees every block of a list of empty blocks. */
    method DeleteEmptyHeapBlockList(list: seq<HeapBlock>)
      modifies this`deletedBlocks
      ensures deletedBlocks == old(deletedBlocks) + list
    {
      deletedBlocks := deletedBlocks + list;
    }
  }

  /** The sweep session of one collection cycle. */
  class RecyclerSweep {
    var recycler: Recycler?

    /** Per block type: the heap's new blocks, taken at BeginSweep and merged before that type is swept. */
    var pendingMergeNewHeapBlockList: map<BucketKind, seq<HeapBlock>>
    /** Per bucket: blocks whose sweep is deferred, and blocks found empty. */
    var pendingSweepList: map<BucketSlot, seq<HeapBlock>>
    var pendingEmptyBlockList: map<BucketSlot, seq<HeapBlock>>
    var hasPendingSweepSmallHeapBlocks: bool
    var hasPendingEmptyBlocks: bool

    var background: bool
    var forceForeground: bool

    var rescanRootBytes: nat
    var adjustPartialHeuristics: bool
    /** Debug copy of the partial-mode decision taken at BeginSweep. */
    var partial: bool
    /** Whether the collection being swept was itself a partial collect. */
    var inPartialCollect: bool
    var lastPartialUncollectedAllocBytes: nat
    var nextPartialUncollectedAllocBytes: nat
    var reuseHeapBlockCount: nat
    var reuseByteCount: nat
    var partialUnusedFreeByteCount: nat
    var partialCollectSmallHeapBlockReuseMinFreeBytes: nat

    /** The session's lists and their flags are empty. */
    predicate ListsCleared()
      reads this`pendingMergeNewHeapBlockList, this`pendingSweepList, this`pendingEmptyBlockList, this`hasPendingSweepSmallHeapBlocks, this`hasPendingEmptyBlocks
    {
      && pendingMergeNewHeapBlockList == map[] && pendingSweepList == map[] && pendingEmptyBlockList == map[]
      && !hasPendingSweepSmallHeapBlocks && !hasPendingEmptyBlocks
    }

    /** No background sweep and no partial-mode decision recorded. */
    predicate ModeCleared()
      reads this`background, this`forceForeground, this`rescanRootBytes, this`adjustPartialHeuristics, this`partial, this`inPartialCollect
    {
      && !background && !forceForeground
      && rescanRootBytes == 0 && !adjustPartialHeuristics && !partial && !inPartialCollect
    }

    /** Every partial-collect counter is zero. */
    predicate CountersCleared()
      reads this`lastPartialUncollectedAllocBytes, this`nextPartialUncollectedAllocBytes, this`reuseHeapBlockCount, this`reuseByteCount, this`partialUnusedFreeByteCount, this`partialCollectSmallHeapBlockReuseMinFreeBytes
    {
      && lastPartialUncollectedAllocBytes == 0 && nextPartialUncollectedAllocBytes == 0
      && reuseHeapBlockCount == 0 && reuseByteCount == 0
      && partialUnusedFreeByteCount == 0 && partialCollectSmallHeapBlockReuseMinFreeBytes == 0
    }

    /** Every field zero: the state `memset` leaves, before the recycler is attached. */
    predicate IsZeroed()
      reads this
    {
      ListsCleared() && ModeCleared() && CountersCleared()
    }

    constructor ()
      ensures recycler == null && IsZeroed()
    {
      recycler := null;
      pendingMergeNewHeapBlockList := map[];
      pendingSweepList := map[];
      pendingEmptyBlockList := map[];
      hasPendingSweepSmallHeapBlocks := false;
      hasPendingEmptyBlocks := false;
      background := false;
      forceForeground := false;
      rescanRootBytes := 0;
      adjustPartialHeuristics := false;
      partial := false;
      inPartialCollect := false;
      lastPartialUncollectedAllocBytes := 0;
      nextPartialUncollectedAllocBytes := 0;
      reuseHeapBlockCount := 0;
      reuseByteCount := 0;
      partialUnusedFreeByteCount := 0;
      partialCollectSmallHeapBlockReuseMinFreeBytes := 0;
    }

    // -------------------------------------------------------------------------
    // Views of the state
    // -------------------------------------------------------------------------

    function PendingMergeList(k: BucketKind): seq<HeapBlock>
      reads this
    {
      if k in pendingMergeNewHeapBlockList then pendingMergeNewHeapBlockList[k] else []
    }

    function PendingSweepList(k: BucketKind, i: nat): seq<HeapBlock>
      reads this
    {
      ListAt(pendingSweepList, k, i)
    }

    function PendingEmptyBlockList(k: BucketKind, i: nat): seq<HeapBlock>
      reads this
    {
      ListAt(pendingEmptyBlockList, k, i)
    }

    /** Whether this session's sweep runs on the background thread. */
    function IsBackground(): (b: bool)
      reads this
      ensures b <==> background
    {
      background
    }

    /**
     * Whether BeginBackground has run for this session: the sweep is on the
     * background thread, or it was set up for one and forced to the foreground.
     */
    function HasSetupBackgroundSweep(): (r: bool)
      reads this
      ensures IsBackground() ==> r
      ensures forceForeground ==> r
      ensures r ==> background || forceForeground
    {
      IsBackground() || forceForeground
    }

    /** The partial accounting order: carried-over <= next <= current partial total. */
    predicate AccountingValid()
      reads this, recycler
      requires recycler != null
    {
      lastPartialUncollectedAllocBytes <= nextPartialUncollectedAllocBytes
        <= recycler.partialUncollectedAllocBytes
    }

    /**
     * The session invariant between BeginSweep and FinishSweep: attached,
     * the decision recorded, and in partial mode the accounting order and
     * the ceilings that DoPartialCollectMode checked.
     */
    ghost predicate Valid()
      reads this, recycler
    {
      && recycler != null && recycler.recyclerSweep == this && PH.ValidTuning(recycler.tuning)
      && partial == recycler.inPartialCollectMode
      && (recycler.inPartialCollectMode ==>
            && AccountingValid()
            && rescanRootBytes <= PH.MaxPartialCollectRescanRootBytes
            && recycler.unusedPartialCollectFreeBytes <= PH.MaxUnusedPartialCollectFreeBytes
            && (inPartialCollect || recycler.unusedPartialCollectFreeBytes == 0))
      && (!recycler.inPartialCollectMode ==>
            recycler.partialUncollectedAllocBytes == 0 && !adjustPartialHeuristics)
    }

    /** Bytes allocated to new objects since the last collection. */
    function GetNewObjectAllocBytes(): (n: nat)
      reads this, recycler
      requires recycler != null && recycler.inPartialCollectMode
      requires recycler.partialUncollectedAllocBytes >= lastPartialUncollectedAllocBytes
      ensures n <= recycler.partialUncollectedAllocBytes
      ensures n == 0 <==> lastPartialUncollectedAllocBytes == recycler.partialUncollectedAllocBytes
    {
      recycler.partialUncollectedAllocBytes - lastPartialUncollectedAllocBytes
    }

    /** Bytes of new objects this sweep expects to free; never more than were allocated. */
    function GetNewObjectFreeBytes(): (n: nat)
      reads this, recycler
      requires recycler != null && recycler.inPartialCollectMode
      requires recycler.partialUncollectedAllocBytes >= nextPartialUncollectedAllocBytes
      ensures n <= recycler.partialUncollectedAllocBytes
      ensures lastPartialUncollectedAllocBytes <= nextPartialUncollectedAllocBytes ==>
                n <= GetNewObjectAllocBytes()
    {
      recycler.partialUncollectedAllocBytes - nextPartialUncollectedAllocBytes
    }

    /** The counters the partial heuristic reads. */
    function Stats(): (h: PH.SweepStats)
      reads this, recycler
      requires recycler != null && recycler.inPartialCollectMode && AccountingValid()
      ensures h.freedBytes <= h.allocBytes
    {
      PH.SweepStats(GetNewObjectAllocBytes(), GetNewObjectFreeBytes(), rescanRootBytes,
                    reuseHeapBlockCount, reuseByteCount, inPartialCollect,
                    nextPartialUncollectedAllocBytes, recycler.unusedPartialCollectFreeBytes)
    }

    // -------------------------------------------------------------------------
    // Lifecycle
    // -------------------------------------------------------------------------

    /** The `memset` of the whole session, one group of fields at a time. */
    method Zero()
      modifies this
      ensures recycler == null && IsZeroed()
    {
      ClearLists();
      ClearMode();
      ClearCounters();
      recycler := null;
    }

    method ClearLists()
      modifies this`pendingMergeNewHeapBlockList, this`pendingSweepList, this`pendingEmptyBlockList
      modifies this`hasPendingSweepSmallHeapBlocks, this`hasPendingEmptyBlocks
      ensures ListsCleared()
    {
      pendingMergeNewHeapBlockList := map[];
      pendingSweepList := map[];
      pendingEmptyBlockList := map[];
      hasPendingSweepSmallHeapBlocks := false;
      hasPendingEmptyBlocks := false;
    }

    method ClearMode()
      modifies this`background, this`forceForeground, this`rescanRootBytes
      modifies this`adjustPartialHeuristics, this`partial, this`inPartialCollect
      ensures ModeCleared()
    {
      background := false;
      forceForeground := false;
      rescanRootBytes := 0;
      adjustPartialHeuristics := false;
      partial := false;
      inPartialCollect := false;
    }

    method ClearCounters()
      modifies this`lastPartialUncollectedAllocBytes, this`nextPartialUncollectedAllocBytes
      modifies this`reuseHeapBlockCount, this`reuseByteCount
      modifies this`partialUnusedFreeByteCount, this`partialCollectSmallHeapBlockReuseMinFreeBytes
      ensures CountersCleared()
    {
      lastPartialUncollectedAllocBytes := 0;
      nextPartialUncollectedAllocBytes := 0;
      reuseHeapBlockCount := 0;
      reuseByteCount := 0;
      partialUnusedFreeByteCount := 0;
      partialCollectSmallHeapBlockReuseMinFreeBytes := 0;
    }

    /**
     * Starts the sweep of a collection: zeroes and attaches the session,
     * flushes disposed objects, takes every new-block list out of the heap,
     * and decides whether the next collection is partial.
     */
    method BeginSweep(r: Recycler, rescanRootBytes: nat, adjustPartialHeuristics: bool)
      requires !r.sweeping && r.recyclerSweep == null
      requires PH.ValidTuning(r.tuning)
      requires r.hasPendingTransferDisposedObjects ==>
                 (!r.inDispose || r.inResolveExternalWeakReferences) && !r.hasDisposableObject
      requires r.partialUncollectedAllocBytes == 0 || r.inPartialCollectMode
      requires r.uncollectedAllocBytes >= r.partialUncollectedAllocBytes
      modifies this, r`recyclerSweep, r`hasPendingTransferDisposedObjects, r`newHeapBlockLists
      modifies r`inPartialCollectMode, r`partialUncollectedAllocBytes, r`uncollectedAllocBytes
      modifies r`unusedPartialCollectFreeBytes
      ensures recycler == r && r.recyclerSweep == this
      ensures !r.hasPendingTransferDisposedObjects
      ensures pendingMergeNewHeapBlockList == old(r.newHeapBlockLists) && r.newHeapBlockLists == map[]
      ensures SweepListsCleared() && !background && !forceForeground && ReuseCountersCleared()
      ensures PartialCollectDecided(rescanRootBytes, adjustPartialHeuristics,
                                    old(r.enablePartialCollect), old(r.inPartialCollectMode),
                                    old(r.partialUncollectedAllocBytes), old(r.uncollectedAllocBytes),
                                    old(r.lastUncollectedAllocBytes), old(r.unusedPartialCollectFreeBytes))
      ensures Valid()
    {
      Attach(r);
      SetupPartialCollect(rescanRootBytes, adjustPartialHeuristics);
    }

    /**
     * The first part of BeginSweep: zeroes the session, attaches it to the
     * recycler, flushes disposed objects and takes the new-block lists.
     */
    method Attach(r: Recycler)
      requires r.hasPendingTransferDisposedObjects ==>
                 (!r.inDispose || r.inResolveExternalWeakReferences) && !r.hasDisposableObject
      modifies this, r`recyclerSweep, r`hasPendingTransferDisposedObjects, r`newHeapBlockLists
      ensures recycler == r && r.recyclerSweep == this
      ensures !r.hasPendingTransferDisposedObjects
      ensures pendingMergeNewHeapBlockList == old(r.newHeapBlockLists) && r.newHeapBlockLists == map[]
      ensures SweepListsCleared() && ModeCleared() && CountersCleared()
    {
      Zero();
      recycler := r;
      r.recyclerSweep := this;
      assert SweepListsCleared() && ModeCleared() && CountersCleared();

      FlushPendingTransferDisposedObjects();
      TakeNewHeapBlockLists();
    }

    /** Bucket lists and their flags are empty (the pending-merge lists aside). */
    predicate SweepListsCleared()
      reads this`pendingSweepList, this`pendingEmptyBlockList, this`hasPendingSweepSmallHeapBlocks, this`hasPendingEmptyBlocks
    {
      && pendingSweepList == map[] && pendingEmptyBlockList == map[]
      && !hasPendingSweepSmallHeapBlocks && !hasPendingEmptyBlocks
    }

    /** The reuse counters that sweep fills in are zero. */
    predicate ReuseCountersCleared()
      reads this`reuseHeapBlockCount, this`reuseByteCount, this`partialUnusedFreeByteCount, this`partialCollectSmallHeapBlockReuseMinFreeBytes
    {
      && reuseHeapBlockCount == 0 && reuseByteCount == 0
      && partialUnusedFreeByteCount == 0 && partialCollectSmallHeapBlockReuseMinFreeBytes == 0
    }

    /**
     * The state BeginSweep leaves, given the recycler fields it read: partial
     * mode is on exactly when DoPartialCollectMode approves; then the previous
     * partial total is carried over and the new one starts from the uncollected
     * bytes (plus, after a full collect, the bytes of the cycle before it);
     * otherwise the partial totals are zero.  After a partial collect the
     * uncollected bytes restart from zero, after a full collect the partial
     * heuristic's unused free bytes do.
     */
    ghost predicate PartialCollectDecided(rescan: nat, adjust: bool, enable: bool, wasPartial: bool,
                                          partialBytes: nat, uncollected: nat, lastUncollected: nat, unused: nat)
      reads this, recycler
      requires recycler != null
    {
      var approve := PH.DoPartialCollectMode(enable, unused, rescan);
      && rescanRootBytes == rescan
      && partial == approve && recycler.inPartialCollectMode == approve
      && adjustPartialHeuristics == (approve && adjust)
      && inPartialCollect == (approve && wasPartial)
      && (approve ==>
            && lastPartialUncollectedAllocBytes == partialBytes
            && nextPartialUncollectedAllocBytes == recycler.partialUncollectedAllocBytes
            && recycler.partialUncollectedAllocBytes == uncollected + (if wasPartial then 0 else lastUncollected))
      && (!approve ==>
            && lastPartialUncollectedAllocBytes == 0 && nextPartialUncollectedAllocBytes == 0
            && recycler.partialUncollectedAllocBytes == 0)
      && recycler.uncollectedAllocBytes == (if inPartialCollect then 0 else uncollected)
      && recycler.unusedPartialCollectFreeBytes == (if inPartialCollect then unused else 0)
    }

    /** Moves every new-block list of the heap into the session; the heap's lists become empty. */
    method TakeNewHeapBlockLists()
      requires recycler != null
      modifies this`pendingMergeNewHeapBlockList, recycler`newHeapBlockLists
      ensures pendingMergeNewHeapBlockList == old(recycler.newHeapBlockLists) && recycler.newHeapBlockLists == map[]
    {
      pendingMergeNewHeapBlockList := recycler.newHeapBlockLists;
      recycler.newHeapBlockLists := map[];
    }

    /**
     * The partial-collect part of BeginSweep: records the rescan cost, enters
     * or leaves partial mode as DoPartialCollectMode decides, and resets the
     * heuristic counter that the kind of collection just done calls for.
     */
    method SetupPartialCollect(rescanRootBytes: nat, adjustPartialHeuristics: bool)
      requires recycler != null && recycler.recyclerSweep == this && PH.ValidTuning(recycler.tuning)
      requires !partial && !inPartialCollect && !this.adjustPartialHeuristics
      requires lastPartialUncollectedAllocBytes == 0 && nextPartialUncollectedAllocBytes == 0
      requires recycler.partialUncollectedAllocBytes == 0 || recycler.inPartialCollectMode
      requires recycler.uncollectedAllocBytes >= recycler.partialUncollectedAllocBytes
      modifies this`rescanRootBytes, this`partial, this`adjustPartialHeuristics
      modifies this`inPartialCollect, this`lastPartialUncollectedAllocBytes, this`nextPartialUncollectedAllocBytes
      modifies recycler`inPartialCollectMode, recycler`partialUncollectedAllocBytes
      modifies recycler`uncollectedAllocBytes, recycler`unusedPartialCollectFreeBytes
      ensures PartialCollectDecided(rescanRootBytes, adjustPartialHeuristics,
                                    old(recycler.enablePartialCollect), old(recycler.inPartialCollectMode),
                                    old(recycler.partialUncollectedAllocBytes), old(recycler.uncollectedAllocBytes),
                                    old(recycler.lastUncollectedAllocBytes), old(recycler.unusedPartialCollectFreeBytes))
      ensures Valid()
    {
      this.rescanRootBytes := rescanRootBytes;
      if PH.DoPartialCollectMode(recycler.enablePartialCollect, recycler.unusedPartialCollectFreeBytes, this.rescanRootBytes) {
        partial := true;
        this.adjustPartialHeuristics := adjustPartialHeuristics;
        StartPartialCollectMode();
      } else {
        if recycler.inPartialCollectMode {
          recycler.FinishPartialCollect();
        }
      }

      if inPartialCollect {
        recycler.ResetHeuristicCounters();
      } else {
        recycler.ResetPartialHeuristicCounters();
      }
    }

    /** Moves disposed objects back to the heap before the new-block lists are taken. */
    method FlushPendingTransferDisposedObjects()
      requires recycler != null
      requires recycler.hasPendingTransferDisposedObjects ==>
                 (!recycler.inDispose || recycler.inResolveExternalWeakReferences)
                 && !recycler.hasDisposableObject
      modifies recycler`hasPendingTransferDisposedObjects
      ensures !recycler.hasPendingTransferDisposedObjects
    {
      if recycler.hasPendingTransferDisposedObjects {
        recycler.TransferDisposedObjects();
      }
    }

    /**
     * Enters (or stays in) partial mode: remembers whether the collection was
     * partial, carries over the previous partial total, and starts the new
     * total from the heap's uncollected bytes (plus, after a full collect,
     * the bytes of the cycle before it).
     */
    method StartPartialCollectMode()
      requires recycler != null
      requires recycler.partialUncollectedAllocBytes == 0 || recycler.inPartialCollectMode
      requires recycler.uncollectedAllocBytes >= recycler.partialUncollectedAllocBytes
      modifies this`inPartialCollect, this`lastPartialUncollectedAllocBytes, this`nextPartialUncollectedAllocBytes
      modifies recycler`inPartialCollectMode, recycler`partialUncollectedAllocBytes
      ensures inPartialCollect == old(recycler.inPartialCollectMode) && recycler.inPartialCollectMode
      ensures lastPartialUncollectedAllocBytes == old(recycler.partialUncollectedAllocBytes)
      ensures recycler.partialUncollectedAllocBytes == nextPartialUncollectedAllocBytes
      ensures nextPartialUncollectedAllocBytes ==
                recycler.uncollectedAllocBytes
                  + (if inPartialCollect then 0 else recycler.lastUncollectedAllocBytes)
      ensures AccountingValid()
    {
      inPartialCollect := recycler.inPartialCollectMode;
      recycler.inPartialCollectMode := true;
      lastPartialUncollectedAllocBytes := recycler.partialUncollectedAllocBytes;
      var currentUncollectedAllocBytes := recycler.uncollectedAllocBytes;
      if !inPartialCollect {
        currentUncollectedAllocBytes := currentUncollectedAllocBytes + recycler.lastUncollectedAllocBytes;
      }
      recycler.partialUncollectedAllocBytes := currentUncollectedAllocBytes;
      nextPartialUncollectedAllocBytes := currentUncollectedAllocBytes;
    }

    /**
     * Recomputes the partial-GC thresholds after sweep (see
     * PartialHeuristic.AdjustPartialHeuristics) and writes what it computed
     * into the reuse minimum and the recycler's new-page threshold.
     */
    method AdjustPartialHeuristics() returns (approved: bool)
      requires Valid() && recycler.inPartialCollectMode && adjustPartialHeuristics
      modifies this`partialCollectSmallHeapBlockReuseMinFreeBytes, recycler`uncollectedNewPageCountPartialCollect
      ensures var a := PH.AdjustPartialHeuristics(old(Stats()), recycler.tuning);
              && approved == a.approved
              && partialCollectSmallHeapBlockReuseMinFreeBytes ==
                   a.reuseMinFreeBytes.GetOr(old(partialCollectSmallHeapBlockReuseMinFreeBytes))
              && recycler.uncollectedNewPageCountPartialCollect ==
                   a.newPageCount.GetOr(old(recycler.uncollectedNewPageCountPartialCollect))
      ensures approved ==>
                && partialCollectSmallHeapBlockReuseMinFreeBytes <= PH.PageSize
                && PH.MinPartialUncollectedNewPageCount <= recycler.uncollectedNewPageCountPartialCollect
                && recycler.uncollectedNewPageCountPartialCollect
                     <= recycler.tuning.maxPartialUncollectedNewPageCount
      ensures Valid()
    {
      var a := PH.AdjustPartialHeuristics(Stats(), recycler.tuning);
      if a.reuseMinFreeBytes.Some? {
        partialCollectSmallHeapBlockReuseMinFreeBytes := a.reuseMinFreeBytes.value;
      }
      if a.newPageCount.Some? {
        recycler.uncollectedNewPageCountPartialCollect := a.newPageCount.value;
      }
      approved := a.approved;
    }

    /**
     * The state FinishSweep leaves in partial mode, given the heuristic's
     * adjustment `a` and the fields it read before: the reuse minimum and the
     * page threshold are what the heuristic wrote (or unchanged); partial mode
     * continues exactly when the heuristic approves and, in the foreground,
     * the write-watch reset succeeded; a failed reset after approval in the
     * foreground disables partial collect; the partial total becomes the next
     * total if partial mode continues after a partial collect, else 0; and the
     * heap's unused free bytes are what the partial-reuse sweep recorded when
     * the heuristic approved (it runs only then), else unchanged.
     */
    ghost predicate PartialSweepFinished(a: PH.Adjustment, background: bool, writeWatchReset: bool,
                                         reuseUnusedFreeBytes: nat, reuseMin: nat, pages: nat,
                                         enable: bool, unused: nat)
      reads this, recycler
      requires recycler != null
    {
      var keeps := KeepsPartialCollectMode(a.approved, background, writeWatchReset);
      && partialCollectSmallHeapBlockReuseMinFreeBytes == a.reuseMinFreeBytes.GetOr(reuseMin)
      && recycler.uncollectedNewPageCountPartialCollect == a.newPageCount.GetOr(pages)
      && recycler.inPartialCollectMode == keeps
      && recycler.enablePartialCollect == (enable && !(a.approved && !background && !writeWatchReset))
      && recycler.partialUncollectedAllocBytes ==
           (if keeps && inPartialCollect then nextPartialUncollectedAllocBytes else 0)
      && recycler.unusedPartialCollectFreeBytes == (if a.approved then reuseUnusedFreeBytes else unused)
    }

    /**
     * Finishes sweep.  In partial mode the heuristic decides whether partial
     * mode continues; if it does, the partial total becomes the next total
     * (0 after a full collect) and the heap sweeps its partially reused pages;
     * otherwise, or if the write-watch reset fails in the foreground, the
     * recycler leaves partial mode.  The reset failure also disables partial
     * collect for good.  `writeWatchReset` is the outcome of resetting write
     * watch on the page allocators, `reuseUnusedFreeBytes` the unused free
     * bytes the partial-reuse sweep records.
     */
    method FinishSweep(writeWatchReset: bool, reuseUnusedFreeBytes: nat)
      requires Valid()
      requires recycler.inPartialCollectMode ==> adjustPartialHeuristics
      modifies this`partialCollectSmallHeapBlockReuseMinFreeBytes
      modifies recycler`uncollectedNewPageCountPartialCollect, recycler`partialUncollectedAllocBytes
      modifies recycler`enablePartialCollect, recycler`inPartialCollectMode
      modifies recycler`unusedPartialCollectFreeBytes
      ensures !old(recycler.inPartialCollectMode) ==>
                && !recycler.inPartialCollectMode && recycler.partialUncollectedAllocBytes == 0
                && recycler.enablePartialCollect == old(recycler.enablePartialCollect)
                && recycler.unusedPartialCollectFreeBytes == old(recycler.unusedPartialCollectFreeBytes)
                && recycler.uncollectedNewPageCountPartialCollect ==
                     old(recycler.uncollectedNewPageCountPartialCollect)
                && partialCollectSmallHeapBlockReuseMinFreeBytes ==
                     old(partialCollectSmallHeapBlockReuseMinFreeBytes)
      ensures old(recycler.inPartialCollectMode) ==>
                PartialSweepFinished(PH.AdjustPartialHeuristics(old(Stats()), recycler.tuning), background,
                                     writeWatchReset, reuseUnusedFreeBytes,
                                     old(partialCollectSmallHeapBlockReuseMinFreeBytes),
                                     old(recycler.uncollectedNewPageCountPartialCollect),
                                     old(recycler.enablePartialCollect), old(recycler.unusedPartialCollectFreeBytes))
    {
      if recycler.inPartialCollectMode {
        var approved := AdjustPartialHeuristics();
        if approved {
          recycler.partialUncollectedAllocBytes := if inPartialCollect then nextPartialUncollectedAllocBytes else 0;
          recycler.SweepPartialReusePages(reuseUnusedFreeBytes);
          if !IsBackground() {
            if !writeWatchReset {
              recycler.enablePartialCollect := false;
              recycler.FinishPartialCollect();
            }
          }
        } else {
          if IsBackground() {
            recycler.BackgroundFinishPartialCollect();
          } else {
            recycler.FinishPartialCollect();
          }
        }
      }
    }

    /**
     * Ends sweep: after a partial collect the survivors' bytes go back into
     * the heap's uncollected total; the session is detached.
     */
    method EndSweep()
      requires recycler != null
      modifies recycler`uncollectedAllocBytes, recycler`recyclerSweep
      ensures recycler.recyclerSweep == null
      ensures recycler.uncollectedAllocBytes ==
                old(recycler.uncollectedAllocBytes) + (if inPartialCollect then nextPartialUncollectedAllocBytes else 0)
    {
      if inPartialCollect {
        recycler.uncollectedAllocBytes := recycler.uncollectedAllocBytes + nextPartialUncollectedAllocBytes;
      }
      recycler.recyclerSweep := null;
    }

    /** Marks the session as running on the background thread, unless it is forced to the foreground. */
    method BeginBackground(forceForeground: bool)
      requires !background
      modifies this`background, this`forceForeground
      ensures background == !forceForeground && this.forceForeground == forceForeground
      ensures HasSetupBackgroundSweep()
    {
      this.background := !forceForeground;
      this.forceForeground := forceForeground;
    }

    method EndBackground()
      requires HasSetupBackgroundSweep()
      modifies this`background
      ensures !background
    {
      background := false;
    }

    /**
     * The background part of sweep, flags only: runs FinishSweep with the
     * session marked background unless forced to the foreground, then clears
     * the background mark.  The new state is FinishSweep's with `background`
     * being "not forced to the foreground".
     */
    method BackgroundSweep(writeWatchReset: bool, reuseUnusedFreeBytes: nat)
      requires Valid() && !background
      requires recycler.inPartialCollectMode ==> adjustPartialHeuristics
      modifies this`background, this`forceForeground, this`partialCollectSmallHeapBlockReuseMinFreeBytes
      modifies recycler`uncollectedNewPageCountPartialCollect, recycler`partialUncollectedAllocBytes
      modifies recycler`enablePartialCollect, recycler`inPartialCollectMode
      modifies recycler`unusedPartialCollectFreeBytes
      ensures !background && forceForeground == old(forceForeground)
      ensures !old(recycler.inPartialCollectMode) ==>
                && !recycler.inPartialCollectMode && recycler.partialUncollectedAllocBytes == 0
                && recycler.enablePartialCollect == old(recycler.enablePartialCollect)
                && recycler.unusedPartialCollectFreeBytes == old(recycler.unusedPartialCollectFreeBytes)
                && recycler.uncollectedNewPageCountPartialCollect ==
                     old(recycler.uncollectedNewPageCountPartialCollect)
                && partialCollectSmallHeapBlockReuseMinFreeBytes ==
                     old(partialCollectSmallHeapBlockReuseMinFreeBytes)
      ensures old(recycler.inPartialCollectMode) ==>
                PartialSweepFinished(PH.AdjustPartialHeuristics(old(Stats()), recycler.tuning), !old(forceForeground),
                                     writeWatchReset, reuseUnusedFreeBytes,
                                     old(partialCollectSmallHeapBlockReuseMinFreeBytes),
                                     old(recycler.uncollectedNewPageCountPartialCollect),
                                     old(recycler.enablePartialCollect), old(recycler.unusedPartialCollectFreeBytes))
    {
      BeginBackground(forceForeground);
      FinishSweep(writeWatchReset, reuseUnusedFreeBytes);
      EndBackground();
    }

    method SetHasPendingSweepSmallHeapBlocks()
      modifies this`hasPendingSweepSmallHeapBlocks
      ensures hasPendingSweepSmallHeapBlocks
    {
      hasPendingSweepSmallHeapBlocks := true;
    }

    // -------------------------------------------------------------------------
    // Pending new block lists
    // -------------------------------------------------------------------------

    /** Empties the pending list of one block type into the buckets for its blocks' object sizes. */
    method MergePendingList(k: BucketKind)
      requires recycler != null
      modifies this`pendingMergeNewHeapBlockList, recycler`buckets
      ensures pendingMergeNewHeapBlockList == old(pendingMergeNewHeapBlockList)[k := []]
      ensures recycler.buckets == MergeAll(old(recycler.buckets), k, old(PendingMergeList(k)))
    {
      var list := PendingMergeList(k);
      pendingMergeNewHeapBlockList := pendingMergeNewHeapBlockList[k := []];
      var i := 0;
      while i < |list|
        invariant 0 <= i <= |list|
        invariant pendingMergeNewHeapBlockList == old(pendingMergeNewHeapBlockList)[k := []]
        invariant MergeAll(recycler.buckets, k, list[i..]) == MergeAll(old(recycler.buckets), k, list)
      {
        assert list[i..][0] == list[i] && list[i..][1..] == list[i + 1..];
        recycler.buckets := MergeNewHeapBlock(recycler.buckets, k, list[i]);
        i := i + 1;
      }
      assert list[i..] == [];
    }

    /** Small-tier merge of the pending new blocks of one kind. */
    method MergePendingNewHeapBlockList(kind: BlockKind)
      requires recycler != null
      modifies this`pendingMergeNewHeapBlockList, recycler`buckets
      ensures pendingMergeNewHeapBlockList == old(pendingMergeNewHeapBlockList)[BucketKind(kind, Small) := []]
      ensures recycler.buckets ==
                MergeAll(old(recycler.buckets), BucketKind(kind, Small), old(PendingMergeList(BucketKind(kind, Small))))
    {
      MergePendingList(BucketKind(kind, Small));
    }

    /** Medium-tier merge of the pending new blocks of one kind. */
    method MergePendingNewMediumHeapBlockList(kind: BlockKind)
      requires recycler != null
      modifies this`pendingMergeNewHeapBlockList, recycler`buckets
      ensures pendingMergeNewHeapBlockList == old(pendingMergeNewHeapBlockList)[BucketKind(kind, Medium) := []]
      ensures recycler.buckets ==
                MergeAll(old(recycler.buckets), BucketKind(kind, Medium), old(PendingMergeList(BucketKind(kind, Medium))))
    {
      MergePendingList(BucketKind(kind, Medium));
    }

    // -------------------------------------------------------------------------
    // Accounting
    // -------------------------------------------------------------------------

    /**
     * In partial mode, folds a block's unaccounted allocation bytes into both
     * the recycler's partial total and the next total; otherwise just clears
     * the block's tracking.
     */
    method AddUnaccountedNewObjectAllocBytes(heapBlock: HeapBlock)
      requires recycler != null
      requires recycler.inPartialCollectMode ==>
                 heapBlock.lastUncollectedAllocBytes == 0 || heapBlock.unaccountedAllocBytes == 0
      modifies heapBlock, this`nextPartialUncollectedAllocBytes, recycler`partialUncollectedAllocBytes
      ensures heapBlock.unaccountedAllocBytes == 0
      ensures old(recycler.inPartialCollectMode) ==>
                && recycler.partialUncollectedAllocBytes ==
                     old(recycler.partialUncollectedAllocBytes) + old(heapBlock.unaccountedAllocBytes)
                && nextPartialUncollectedAllocBytes ==
                     old(nextPartialUncollectedAllocBytes) + old(heapBlock.unaccountedAllocBytes)
                && heapBlock.lastUncollectedAllocBytes ==
                     old(heapBlock.lastUncollectedAllocBytes) + old(heapBlock.unaccountedAllocBytes)
                && heapBlock.expectedFreeBytes == old(heapBlock.expectedFreeBytes)
      ensures !old(recycler.inPartialCollectMode) ==>
                && recycler.partialUncollectedAllocBytes == old(recycler.partialUncollectedAllocBytes)
                && nextPartialUncollectedAllocBytes == old(nextPartialUncollectedAllocBytes)
                && heapBlock.lastUncollectedAllocBytes == 0
                && heapBlock.expectedFreeBytes == old(heapBlock.expectedFreeBytes)
      ensures old(Valid()) ==> Valid()
    {
      if recycler.inPartialCollectMode {
        var unaccountedAllocBytes := heapBlock.GetAndClearUnaccountedAllocBytes();
        heapBlock.lastUncollectedAllocBytes := heapBlock.lastUncollectedAllocBytes + unaccountedAllocBytes;
        recycler.partialUncollectedAllocBytes := recycler.partialUncollectedAllocBytes + unaccountedAllocBytes;
        nextPartialUncollectedAllocBytes := nextPartialUncollectedAllocBytes + unaccountedAllocBytes;
      } else {
        heapBlock.ClearAllAllocBytes();
      }
    }

    /** Takes the bytes a sweep expects to free off the next total; never below the carried-over total. */
    method SubtractSweepNewObjectAllocBytes(newObjectExpectSweepByteCount: nat)
      requires recycler != null && recycler.inPartialCollectMode
      requires nextPartialUncollectedAllocBytes >= newObjectExpectSweepByteCount
      requires nextPartialUncollectedAllocBytes >= lastPartialUncollectedAllocBytes + newObjectExpectSweepByteCount
      modifies this`nextPartialUncollectedAllocBytes
      ensures nextPartialUncollectedAllocBytes == old(nextPartialUncollectedAllocBytes) - newObjectExpectSweepByteCount
      ensures old(Valid()) ==> Valid()
    {
      nextPartialUncollectedAllocBytes := nextPartialUncollectedAllocBytes - newObjectExpectSweepByteCount;
    }

    /** Counts a block whose free objects will be reused: its free bytes, and the block itself unless leaf. */
    method NotifyAllocableObjects(heapBlock: HeapBlock)
      modifies this`reuseByteCount, this`reuseHeapBlockCount
      ensures reuseByteCount == old(reuseByteCount) + heapBlock.expectedFreeBytes
      ensures reuseHeapBlockCount == old(reuseHeapBlockCount) + (if heapBlock.IsLeafBlock() then 0 else 1)
      ensures old(Valid()) ==> Valid()
    {
      reuseByteCount := reuseByteCount + heapBlock.expectedFreeBytes;
      if !heapBlock.IsLeafBlock() {
        reuseHeapBlockCount := reuseHeapBlockCount + 1;
      }
    }

    method AddUnusedFreeByteCount(expectFreeByteCount: nat)
      modifies this`partialUnusedFreeByteCount
      ensures partialUnusedFreeByteCount == old(partialUnusedFreeByteCount) + expectFreeByteCount
      ensures old(Valid()) ==> Valid()
    {
      partialUnusedFreeByteCount := partialUnusedFreeByteCount + expectFreeByteCount;
    }

    // -------------------------------------------------------------------------
    // Shutdown
    // -------------------------------------------------------------------------

    /** `deleted` after freeing the pending new blocks of the five kinds of a tier, in that order. */
    function AfterPendingMergeDeleted(deleted: seq<HeapBlock>, tier: Tier): seq<HeapBlock>
      reads this
    {
      deleted
        + PendingMergeList(BucketKind(Leaf, tier))
        + PendingMergeList(BucketKind(Normal, tier))
        + PendingMergeList(BucketKind(NormalWithBarrier, tier))
        + PendingMergeList(BucketKind(FinalizableWithBarrier, tier))
        + PendingMergeList(BucketKind(Finalizable, tier))
    }

    /** `deleted` after shutdown has freed the session's lists of one tier with `count` buckets. */
    function AfterTierDeleted(deleted: seq<HeapBlock>, tier: Tier, count: nat): seq<HeapBlock>
      reads this
    {
      AfterBucketListsDeleted(AfterPendingMergeDeleted(deleted, tier), pendingSweepList, pendingEmptyBlockList, tier, count)
    }

    /** The lists shutdown expects to be empty in every bucket of a tier. */
    predicate ShutdownListsEmpty(tier: Tier, n: nat)
      reads this
    {
      forall i: nat | i < n ::
        && PendingSweepList(BucketKind(Leaf, tier), i) == []
        && PendingEmptyBlockList(BucketKind(FinalizableWithBarrier, tier), i) == []
        && PendingEmptyBlockList(BucketKind(Finalizable, tier), i) == []
    }

    /** Deletes the session's lists of one tier with `count` buckets. */
    method DeleteTierLists(tier: Tier, count: nat)
      requires recycler != null && ShutdownListsEmpty(tier, count)
      modifies recycler`deletedBlocks
      ensures recycler.deletedBlocks == AfterTierDeleted(old(recycler.deletedBlocks), tier, count)
    {
      var r := recycler;
      r.DeleteHeapBlockList(PendingMergeList(BucketKind(Leaf, tier)));
      r.DeleteHeapBlockList(PendingMergeList(BucketKind(Normal, tier)));
      r.DeleteHeapBlockList(PendingMergeList(BucketKind(NormalWithBarrier, tier)));
      r.DeleteHeapBlockList(PendingMergeList(BucketKind(FinalizableWithBarrier, tier)));
      r.DeleteHeapBlockList(PendingMergeList(BucketKind(Finalizable, tier)));
      ghost var base := r.deletedBlocks;
      assert base == AfterPendingMergeDeleted(old(r.deletedBlocks), tier);
      for i := 0 to count
        invariant r.deletedBlocks == AfterBucketListsDeleted(base, pendingSweepList, pendingEmptyBlockList, tier, i)
      {
        assert PendingSweepList(BucketKind(Leaf, tier), i) == [];
        r.DeleteHeapBlockList(PendingSweepList(BucketKind(Normal, tier), i));
        r.DeleteHeapBlockList(PendingSweepList(BucketKind(Finalizable, tier), i));
        r.DeleteHeapBlockList(PendingSweepList(BucketKind(FinalizableWithBarrier, tier), i));
        r.DeleteEmptyHeapBlockList(PendingEmptyBlockList(BucketKind(Leaf, tier), i));
        r.DeleteEmptyHeapBlockList(PendingEmptyBlockList(BucketKind(Normal, tier), i));
        r.DeleteEmptyHeapBlockList(PendingEmptyBlockList(BucketKind(NormalWithBarrier, tier), i));
        assert PendingEmptyBlockList(BucketKind(FinalizableWithBarrier, tier), i) == [];
        assert PendingEmptyBlockList(BucketKind(Finalizable, tier), i) == [];
      }
    }

    /**
     * Used only when the recycler is destroyed mid-sweep: frees every block
     * still held by the session's lists, small tier first, then medium.
     */
    method ShutdownCleanup()
      requires recycler != null
      requires ShutdownListsEmpty(Small, recycler.bucketCount)
      requires ShutdownListsEmpty(Medium, recycler.mediumBucketCount)
      modifies recycler`deletedBlocks
      ensures recycler.deletedBlocks ==
                AfterTierDeleted(AfterTierDeleted(old(recycler.deletedBlocks), Small, recycler.bucketCount),
                                 Medium, recycler.mediumBucketCount)
    {
      DeleteTierLists(Small, recycler.bucketCount);
      DeleteTierLists(Medium, recycler.mediumBucketCount);
    }
  }
}
