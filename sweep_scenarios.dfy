/**
 * Whole sweep cycles on a concrete recycler, as a GC driver would run them.
 * Each scenario builds a fresh recycler and session and checks the state the
 * session leaves behind.
 */
module SweepScenarios {
  import opened HeapBlocks
  import opened Sweep
  import opened Wrappers
  import PH = PartialHeuristic

  const MB: nat := PH.MegaBytes

  /** A tuning with a 64 MB full-collect trigger and up to 16384 new pages. */
  function DefaultTuning(): (t: PH.Tuning)
    ensures PH.ValidTuning(t)
  {
    PH.Tuning(64 * MB, 16384)
  }

  /**
   * After a full collect with a cheap rescan, the next collection is partial:
   * the partial total starts from the uncollected bytes plus the bytes of the
   * cycle before, and the partial heuristic's unused bytes restart from 0.
   */
  method FullCollectEntersPartialMode() {
    var r := new Recycler(DefaultTuning(), 4, 2);
    r.uncollectedAllocBytes := 3 * MB;
    r.lastUncollectedAllocBytes := MB;
    var s := new RecyclerSweep();
    s.BeginSweep(r, MB, true);
    assert PH.DoPartialCollectMode(true, 0, MB);
    assert r.inPartialCollectMode && s.partial && s.adjustPartialHeuristics;
    assert !s.inPartialCollect;
    assert r.partialUncollectedAllocBytes == 4 * MB && s.nextPartialUncollectedAllocBytes == 4 * MB;
    assert s.lastPartialUncollectedAllocBytes == 0;
    assert r.uncollectedAllocBytes == 3 * MB && r.unusedPartialCollectFreeBytes == 0;
  }

  /** A rescan estimate over 5 MB keeps the recycler out of partial mode. */
  method CostlyRescanStaysFull() {
    var r := new Recycler(DefaultTuning(), 4, 2);
    r.uncollectedAllocBytes := 3 * MB;
    var s := new RecyclerSweep();
    s.BeginSweep(r, 6 * MB, true);
    assert !PH.DoPartialCollectMode(true, 0, 6 * MB);
    assert !r.inPartialCollectMode && !s.partial && !s.adjustPartialHeuristics;
    assert r.partialUncollectedAllocBytes == 0;
    s.FinishSweep(true, 0);
    assert !r.inPartialCollectMode && r.partialUncollectedAllocBytes == 0;
    s.EndSweep();
    assert r.recyclerSweep == null && r.uncollectedAllocBytes == 3 * MB;
  }

  /**
   * A sweep that frees none of the new objects fails the 10% efficacy floor:
   * FinishSweep takes the recycler out of partial mode and drops the partial
   * totals.
   */
  method NothingFreedLeavesPartialMode() {
    var r := new Recycler(DefaultTuning(), 4, 2);
    r.uncollectedAllocBytes := 3 * MB;
    r.lastUncollectedAllocBytes := MB;
    var s := new RecyclerSweep();
    s.BeginSweep(r, MB, true);
    assert PH.DoPartialCollectMode(true, 0, MB);
    var h := s.Stats();
    assert h.allocBytes == 4 * MB && h.freedBytes == 0;
    PH.EfficacyFloorRejects(h, r.tuning);
    s.FinishSweep(true, 0);
    assert !r.inPartialCollectMode;
    assert r.partialUncollectedAllocBytes == 0 && r.unusedPartialCollectFreeBytes == 0;
    assert r.enablePartialCollect;
  }

  /**
   * The new blocks taken at BeginSweep reach their buckets when the session
   * merges their list: each lands in the bucket for its object size, and the
   * heap's own new-block list stays empty.
   */
  method NewBlocksMergeIntoBuckets() {
    var r := new Recycler(DefaultTuning(), 4, 2);
    var k := BucketKind(Normal, Small);
    var b16 := new HeapBlock(k, 16, 0, 0);
    var b32 := new HeapBlock(k, 32, 0, 0);
    r.newHeapBlockLists := map[k := [b16, b32]];
    var s := new RecyclerSweep();
    s.BeginSweep(r, 6 * MB, false);
    assert s.PendingMergeList(k) == [b16, b32] && r.newHeapBlockLists == map[];
    assert r.buckets == map[];
    s.MergePendingNewHeapBlockList(Normal);
    assert s.PendingMergeList(k) == [];
    MergeTwoSizes(k, b16, b32);
    assert Bucket(r.buckets, BucketKey(k, 16)) == [b16];
    assert Bucket(r.buckets, BucketKey(k, 32)) == [b32];
  }

  /** Merging two blocks of different sizes into empty buckets gives each its own bucket. */
  lemma MergeTwoSizes(k: BucketKind, a: HeapBlock, b: HeapBlock)
    requires a.objectSize != b.objectSize
    ensures Bucket(MergeAll(map[], k, [a, b]), BucketKey(k, a.objectSize)) == [a]
    ensures Bucket(MergeAll(map[], k, [a, b]), BucketKey(k, b.objectSize)) == [b]
  {
    var first := MergeNewHeapBlock(map[], k, a);
    var both := MergeNewHeapBlock(first, k, b);
    assert [a, b][1..] == [b];
    assert MergeAll(first, k, [b]) == MergeAll(both, k, []);
  }

  /**
   * During partial mode a block's unaccounted bytes move into both partial
   * totals; an expected sweep then takes bytes off the next total only.
   */
  method AccountingDuringPartialSweep() {
    var r := new Recycler(DefaultTuning(), 4, 2);
    r.uncollectedAllocBytes := 3 * MB;
    var s := new RecyclerSweep();
    s.BeginSweep(r, MB, true);
    assert PH.DoPartialCollectMode(true, 0, MB);
    var b := new HeapBlock(BucketKind(Normal, Small), 16, 4096, 512);
    s.AddUnaccountedNewObjectAllocBytes(b);
    assert b.unaccountedAllocBytes == 0 && b.lastUncollectedAllocBytes == 4096;
    assert r.partialUncollectedAllocBytes == 3 * MB + 4096;
    assert s.nextPartialUncollectedAllocBytes == 3 * MB + 4096;
    s.SubtractSweepNewObjectAllocBytes(1024);
    assert s.nextPartialUncollectedAllocBytes == 3 * MB + 3072;
    assert s.GetNewObjectAllocBytes() == 3 * MB + 4096 && s.GetNewObjectFreeBytes() == 1024;
  }

  /** A leaf block's free bytes count toward reuse, but the block does not. */
  method ReuseCountsSkipLeafBlocks() {
    var s := new RecyclerSweep();
    var leaf := new HeapBlock(BucketKind(Leaf, Small), 16, 0, 512);
    var normal := new HeapBlock(BucketKind(Normal, Medium), 1024, 0, 2048);
    s.NotifyAllocableObjects(leaf);
    s.NotifyAllocableObjects(normal);
    assert s.reuseByteCount == 2560 && s.reuseHeapBlockCount == 1;
  }

  /**
   * A sweep with nothing allocated is approved and keeps partial mode; the
   * partial-reuse sweep records 17 MB of unused free bytes.
   */
  method EmptySweepKeepsPartialMode() returns (r: Recycler)
    ensures fresh(r) && r.tuning == DefaultTuning() && r.enablePartialCollect
    ensures !r.sweeping && r.recyclerSweep == null && !r.hasPendingTransferDisposedObjects
    ensures r.inPartialCollectMode && r.partialUncollectedAllocBytes == 0 && r.uncollectedAllocBytes == 0
    ensures r.unusedPartialCollectFreeBytes == 17 * MB
    ensures r.uncollectedNewPageCountPartialCollect == PH.MinPartialUncollectedNewPageCount
  {
    r := new Recycler(DefaultTuning(), 4, 2);
    var s := new RecyclerSweep();
    s.BeginSweep(r, 0, true);
    assert PH.DoPartialCollectMode(true, 0, 0);
    assert s.Stats() == PH.SweepStats(0, 0, 0, 0, 0, false, 0, 0);
    EmptySweepApproved(r.tuning);
    s.FinishSweep(true, 17 * MB);
    s.EndSweep();
  }

  /**
   * More than 16 MB of unused free bytes left by the partial-reuse sweep:
   * the next BeginSweep leaves partial mode and restarts the unused total.
   */
  method UnusedBytesEndPartialMode() {
    var r := EmptySweepKeepsPartialMode();
    var s := new RecyclerSweep();
    s.BeginSweep(r, 0, true);
    assert !PH.DoPartialCollectMode(true, 17 * MB, 0);
    assert !r.inPartialCollectMode && r.partialUncollectedAllocBytes == 0;
    assert r.unusedPartialCollectFreeBytes == 0;
  }

  /** A sweep after a full collect with nothing allocated and no rescan is approved at the page floor. */
  lemma EmptySweepApproved(t: PH.Tuning)
    requires t == DefaultTuning()
    ensures PH.AdjustPartialHeuristics(PH.SweepStats(0, 0, 0, 0, 0, false, 0, 0), t)
              == PH.Adjustment(true, Some(0), Some(PH.MinPartialUncollectedNewPageCount), Some(0.0))
  {
    var h := PH.SweepStats(0, 0, 0, 0, 0, false, 0, 0);
    PH.ZeroAllocationReusesAllPages(h, t);
    assert PH.NewRescanRootBytes(h) == 0;
    assert PH.HeuristicRatio(h, t) == 0.0;
    PH.BudgetCheckDecides(h, t);
  }
}
