/**
 * The partial-collect decision and heuristic of the Recycler's sweep session
 * (lib/Common/Memory/RecyclerSweep.cpp).  Everything here is pure: the
 * decision before sweep (`DoPartialCollectMode`) and the recomputation of the
 * partial-GC thresholds after sweep (`AdjustPartialHeuristics`), stated over
 * the counters they read.  The class methods in module Sweep call these and
 * write the results into the recycler and the session.
 *
 * The source computes the heuristic in IEEE-754 `double` and truncates with
 * `(size_t)` casts; the model uses `real` and `.Floor`, so the values agree
 * with the source up to rounding, and the rejection conditions and bounds are
 * proved for the exact arithmetic.
 */
module PartialHeuristic {
  import opened Wrappers

  // ---------------------------------------------------------------------------
  // Constants
  // ---------------------------------------------------------------------------

  /** Page size of the target (PAGESIZE = 0x1000). */
  const PageSize: nat := 4096
  const KiloBytes: nat := 1024
  const MegaBytes: nat := 1024 * 1024

  /** 4 MB worth of pages: the floor of the new-page threshold. */
  const MinPartialUncollectedNewPageCount: nat := 4 * MegaBytes / PageSize
  /** Ceiling on the estimated rescan cost for partial collection. */
  const MaxPartialCollectRescanRootBytes: nat := 5 * MegaBytes
  /** Declared beside the others; no operation of the sweep session reads it. */
  const MinPartialCollectRescanRootBytes: nat := 128 * KiloBytes
  /** Ceiling on unused free bytes in partially reused blocks. */
  const MaxUnusedPartialCollectFreeBytes: nat := 16 * MegaBytes
  /** A partial collect must have freed at least 10% of the new bytes. */
  const MinPartialCollectEfficacy: real := 0.1

  /** The constants have the values the source gives them. */
  lemma ConstantValues()
    ensures MinPartialUncollectedNewPageCount == 1024
    ensures MaxPartialCollectRescanRootBytes == 5_242_880
    ensures MinPartialCollectRescanRootBytes == 131_072
    ensures MaxUnusedPartialCollectFreeBytes == 16_777_216
    ensures MinPartialCollectEfficacy == 1.0 / 10.0
  {
  }

  /**
   * Tunables of the Recycler's global heuristic object, which is not part of
   * this model: the full-collect trigger for uncollected bytes during partial
   * mode, and the ceiling of the new-page threshold.
   */
  datatype Tuning = Tuning(
    maxUncollectedAllocBytesPartialCollect: nat,
    maxPartialUncollectedNewPageCount: nat)

  /** The heuristic divides by the first tunable and scales up to the second. */
  predicate ValidTuning(t: Tuning) {
    && t.maxUncollectedAllocBytesPartialCollect > 0
    && MinPartialUncollectedNewPageCount <= t.maxPartialUncollectedNewPageCount
  }

  // ---------------------------------------------------------------------------
  // Decision before sweep
  // ---------------------------------------------------------------------------

  /**
   * Whether the next collection runs in partial mode: partial collect must be
   * enabled, the unused free bytes of partially reused blocks must not exceed
   * 16 MB, and the rescan estimate must not exceed 5 MB.
   */
  function DoPartialCollectMode(enablePartialCollect: bool, unusedPartialCollectFreeBytes: nat,
                                rescanRootBytes: nat): (r: bool)
    ensures !enablePartialCollect ==> !r
    ensures unusedPartialCollectFreeBytes > MaxUnusedPartialCollectFreeBytes ==> !r
    ensures enablePartialCollect && unusedPartialCollectFreeBytes <= MaxUnusedPartialCollectFreeBytes ==>
              (r <==> rescanRootBytes <= MaxPartialCollectRescanRootBytes)
  {
    if !enablePartialCollect then false
    else if unusedPartialCollectFreeBytes > MaxUnusedPartialCollectFreeBytes then false
    else rescanRootBytes <= MaxPartialCollectRescanRootBytes
  }

  /** A rescan estimate over 5 MB rejects partial mode whatever else holds. */
  lemma OversizedRescanRejects(enablePartialCollect: bool, unusedPartialCollectFreeBytes: nat,
                               rescanRootBytes: nat)
    requires rescanRootBytes > MaxPartialCollectRescanRootBytes
    ensures !DoPartialCollectMode(enablePartialCollect, unusedPartialCollectFreeBytes, rescanRootBytes)
  {
  }

  // ---------------------------------------------------------------------------
  // Arithmetic pieces of the heuristic
  // ---------------------------------------------------------------------------

  /** The `(size_t)` truncation of a non-negative value. */
  function FloorNat(x: real): (n: nat)
    requires 0.0 <= x
    ensures n as real <= x < n as real + 1.0
  {
    x.Floor
  }

  /** Truncation never exceeds an integer bound of its argument. */
  lemma FloorNatAtMost(x: real, bound: nat)
    requires 0.0 <= x <= bound as real
    ensures FloorNat(x) <= bound
  {
  }

  /** Truncation is monotonic. */
  lemma FloorNatMonotonic(x: real, y: real)
    requires 0.0 <= x <= y
    ensures FloorNat(x) <= FloorNat(y)
  {
    assert FloorNat(x) as real < FloorNat(y) as real + 1.0;
  }

  function Max(a: nat, b: nat): (m: nat)
    ensures m >= a && m >= b && (m == a || m == b)
  {
    if a < b then b else a
  }

  /** 0 <= a*b <= b for a in [0, 1] and b >= 0. */
  lemma ScaleWithinUnit(a: real, b: real)
    requires 0.0 <= a <= 1.0 && 0.0 <= b
    ensures 0.0 <= a * b <= b
  {
    assert (1.0 - a) * b >= 0.0;
  }

  /** 0 <= f / a <= 1 for 0 <= f <= a and a > 0. */
  lemma RatioWithinUnit(f: real, a: real)
    requires 0.0 <= f <= a && 0.0 < a
    ensures 0.0 <= f / a <= 1.0
  {
    assert (f / a) * a == f;
  }

  /** For a > 0, f / a < 1/10 exactly when 10 * f < a. */
  lemma {:induction false} TenthOfRatio(f: nat, a: nat)
    requires a > 0
    ensures f as real / a as real < MinPartialCollectEfficacy <==> 10 * f < a
  {
    var e := f as real / a as real;
    assert e * a as real == f as real;
    if e < MinPartialCollectEfficacy {
      assert (MinPartialCollectEfficacy - e) * a as real > 0.0;
    } else {
      assert (e - MinPartialCollectEfficacy) * a as real >= 0.0;
    }
  }

  /**
   * Raw collection efficacy: freed / allocated, or 1 when nothing was
   * allocated.  Below the 10% floor exactly when 10 * freed < allocated.
   */
  function CollectEfficacy(allocBytes: nat, freedBytes: nat): (e: real)
    requires freedBytes <= allocBytes
    ensures 0.0 <= e <= 1.0
    ensures allocBytes == 0 ==> e == 1.0
    ensures e < MinPartialCollectEfficacy <==> 10 * freedBytes < allocBytes
  {
    if allocBytes == 0 then 1.0
    else
      TenthOfRatio(freedBytes, allocBytes);
      RatioWithinUnit(freedBytes as real, allocBytes as real);
      var e := freedBytes as real / allocBytes as real;
      assert 0.0 <= e <= 1.0;
      e
  }

  /**
   * Efficacy rescaled so that the 10% floor maps to 0 and 1 maps to 1.
   */
  function ScaledEfficacy(e: real): (s: real)
    requires MinPartialCollectEfficacy <= e <= 1.0
    ensures 0.0 <= s <= 1.0
    ensures e == MinPartialCollectEfficacy ==> s == 0.0
    ensures e == 1.0 ==> s == 1.0
  {
    (e - MinPartialCollectEfficacy) / (1.0 - MinPartialCollectEfficacy)
  }

  /**
   * Cost and efficacy blended in equal weight: c * e + (1 - e).  It lies in
   * [0, 1], and it is at least the cost share not covered by efficacy.
   */
  function CostEfficacyRatio(cost: real, efficacy: real): (r: real)
    requires 0.0 <= cost <= 1.0 && 0.0 <= efficacy <= 1.0
    ensures 0.0 <= r <= 1.0
    ensures 1.0 - efficacy <= r
    ensures efficacy == 0.0 ==> r == 1.0
  {
    ScaleWithinUnit(cost, efficacy);
    cost * efficacy + (1.0 - efficacy)
  }

  /**
   * x * (1 - w) + w: x pushed towards 1 by the weight w.  Used for the
   * full-collect pressure and for folding that pressure into the ratio.  The
   * result stays in [0, 1] and never falls below x or w.
   */
  function Blend(x: real, w: real): (r: real)
    requires 0.0 <= x <= 1.0 && 0.0 <= w <= 1.0
    ensures 0.0 <= r <= 1.0
    ensures x <= r && w <= r
  {
    BlendAtMostOne(x, w);
    BlendAtLeast(x, w);
    var r := x * (1.0 - w) + w;
    assert w <= r <= 1.0 && x <= r;
    r
  }

  lemma BlendAtMostOne(x: real, w: real)
    requires 0.0 <= x <= 1.0 && 0.0 <= w <= 1.0
    ensures x * (1.0 - w) + w <= 1.0
  {
    ScaleWithinUnit(x, 1.0 - w);
  }

  lemma BlendAtLeast(x: real, w: real)
    requires 0.0 <= x <= 1.0 && 0.0 <= w <= 1.0
    ensures x <= x * (1.0 - w) + w && w <= x * (1.0 - w) + w
  {
    ScaleWithinUnit(x, w);
    ScaleWithinUnit(w, x);
    assert x * (1.0 - w) == x - x * w;
  }

  /** Multiplying by a non-negative factor keeps the order. */
  lemma MulMonotonic(a: real, x: real, y: real)
    requires 0.0 <= a && x <= y
    ensures a * x <= a * y
  {
    assert a * y - a * x == a * (y - x);
    assert a * (y - x) >= 0.0;
  }

  // ---------------------------------------------------------------------------
  // The heuristic after sweep
  // ---------------------------------------------------------------------------

  /** The counters AdjustPartialHeuristics reads. */
  datatype SweepStats = SweepStats(
    allocBytes: nat,                        // GetNewObjectAllocBytes()
    freedBytes: nat,                        // GetNewObjectFreeBytes()
    rescanRootBytes: nat,
    reuseHeapBlockCount: nat,
    reuseByteCount: nat,
    inPartialCollect: bool,
    nextPartialUncollectedAllocBytes: nat,
    unusedPartialCollectFreeBytes: nat)

  /** The caller's guarantees: freed <= allocated, and both ceilings held at BeginSweep. */
  predicate ValidStats(h: SweepStats) {
    && h.freedBytes <= h.allocBytes
    && h.rescanRootBytes <= MaxPartialCollectRescanRootBytes
    && h.unusedPartialCollectFreeBytes <= MaxUnusedPartialCollectFreeBytes
  }

  /** The efficacy floor rejects: something was allocated and under 10% of it was freed. */
  predicate BelowEfficacyFloor(h: SweepStats) {
    h.allocBytes > 0 && 10 * h.freedBytes < h.allocBytes
  }

  /** Efficacy used from the floor check on: 1 for no allocation, else the rescaled value. */
  function AdjustedEfficacy(h: SweepStats): (e: real)
    requires ValidStats(h) && !BelowEfficacyFloor(h)
    ensures 0.0 <= e <= 1.0
    ensures h.allocBytes == 0 ==> e == 1.0
  {
    if h.allocBytes == 0 then 1.0
    else ScaledEfficacy(CollectEfficacy(h.allocBytes, h.freedBytes))
  }

  /** Minimum free bytes for a block to be reused without sweeping. */
  function ReuseMinFreeBytes(h: SweepStats): (n: nat)
    requires ValidStats(h) && !BelowEfficacyFloor(h)
    ensures n <= PageSize
    ensures h.allocBytes == 0 ==> n == 0
  {
    if h.allocBytes == 0 then 0
    else
      var e := AdjustedEfficacy(h);
      ScaleWithinUnit(e, PageSize as real);
      FloorNatAtMost(PageSize as real * e, PageSize);
      FloorNat(PageSize as real * e)
  }

  /** Rescan cost expected from the reused non-leaf blocks, in bytes. */
  function EstimatedPartialReuseBytes(reuseHeapBlockCount: nat, efficacy: real): (n: nat)
    requires 0.0 <= efficacy <= 1.0
    ensures efficacy == 1.0 ==> n == 0
    ensures n <= reuseHeapBlockCount * PageSize
  {
    ScaleWithinUnit(1.0 - efficacy, reuseHeapBlockCount as real);
    FloorNatAtMost(reuseHeapBlockCount as real * (1.0 - efficacy), reuseHeapBlockCount);
    FloorNat(reuseHeapBlockCount as real * (1.0 - efficacy)) * PageSize
  }

  /** The rescan estimate rechecked after sweep. */
  function NewRescanRootBytes(h: SweepStats): (n: nat)
    requires ValidStats(h) && !BelowEfficacyFloor(h)
    ensures n >= h.rescanRootBytes
    ensures n >= EstimatedPartialReuseBytes(h.reuseHeapBlockCount, AdjustedEfficacy(h))
  {
    Max(h.rescanRootBytes, EstimatedPartialReuseBytes(h.reuseHeapBlockCount, AdjustedEfficacy(h)))
  }

  /** The rechecked rescan estimate is over the 5 MB ceiling. */
  predicate RescanTooCostly(h: SweepStats)
    requires ValidStats(h) && !BelowEfficacyFloor(h)
  {
    NewRescanRootBytes(h) > MaxPartialCollectRescanRootBytes
  }

  /** Uncollected bytes already over the full-collect trigger during a partial collect. */
  predicate UncollectedTooHigh(h: SweepStats, t: Tuning) {
    h.inPartialCollect && h.nextPartialUncollectedAllocBytes > t.maxUncollectedAllocBytesPartialCollect
  }

  /** Pressure towards a full collect from uncollected and unused free bytes. */
  function FullCollectPressure(h: SweepStats, t: Tuning): (p: real)
    requires ValidTuning(t) && ValidStats(h) && !UncollectedTooHigh(h, t) && h.inPartialCollect
    ensures 0.0 <= p <= 1.0
  {
    var uncollectedBytesPressure :=
      h.nextPartialUncollectedAllocBytes as real / t.maxUncollectedAllocBytesPartialCollect as real;
    Blend(h.unusedPartialCollectFreeBytes as real / MaxUnusedPartialCollectFreeBytes as real,
          uncollectedBytesPressure)
  }

  /** The blended ratio that places the new-page threshold between its floor and its ceiling. */
  function HeuristicRatio(h: SweepStats, t: Tuning): (ratio: real)
    requires ValidTuning(t) && ValidStats(h) && !BelowEfficacyFloor(h)
    requires !RescanTooCostly(h) && !UncollectedTooHigh(h, t)
    ensures 0.0 <= ratio <= 1.0
    ensures 1.0 - AdjustedEfficacy(h) <= ratio
  {
    var e := AdjustedEfficacy(h);
    var collectCost := NewRescanRootBytes(h) as real / MaxPartialCollectRescanRootBytes as real;
    var ratio := CostEfficacyRatio(collectCost, e);
    if h.inPartialCollect then Blend(ratio, FullCollectPressure(h, t)) else ratio
  }

  /** The new-page threshold scaled linearly by the ratio. */
  function NewPageCount(ratio: real, t: Tuning): (n: nat)
    requires ValidTuning(t) && 0.0 <= ratio <= 1.0
    ensures MinPartialUncollectedNewPageCount <= n <= t.maxPartialUncollectedNewPageCount
    ensures ratio == 0.0 ==> n == MinPartialUncollectedNewPageCount
    ensures ratio == 1.0 ==> n == t.maxPartialUncollectedNewPageCount
  {
    var span := t.maxPartialUncollectedNewPageCount - MinPartialUncollectedNewPageCount;
    ScaleWithinUnit(ratio, span as real);
    FloorNatAtMost(span as real * ratio, span);
    MinPartialUncollectedNewPageCount + FloorNat(span as real * ratio)
  }

  /** Free bytes expected to be reused by allocation, assuming all reuse pages are used. */
  function EstimatedPartialReusedFreeByteCount(reuseByteCount: nat, efficacy: real): (n: nat)
    requires 0.0 <= efficacy <= 1.0
    ensures n <= reuseByteCount
    ensures efficacy == 1.0 ==> n == 0
  {
    ScaleWithinUnit(1.0 - efficacy, reuseByteCount as real);
    FloorNatAtMost(reuseByteCount as real * (1.0 - efficacy), reuseByteCount);
    FloorNat(reuseByteCount as real * (1.0 - efficacy))
  }

  /** Bytes projected to be outstanding once the new threshold is reached. */
  function ProjectedUncollectedBytes(h: SweepStats, t: Tuning): nat
    requires ValidTuning(t) && ValidStats(h) && !BelowEfficacyFloor(h)
    requires !RescanTooCostly(h) && !UncollectedTooHigh(h, t)
  {
    NewPageCount(HeuristicRatio(h, t), t) * PageSize
      + h.nextPartialUncollectedAllocBytes + EstimatedPartialReusedFreeByteCount(h.reuseByteCount, AdjustedEfficacy(h))
  }

  /**
   * What one run of AdjustPartialHeuristics decides and writes: whether
   * partial mode continues, and the values it stored into
   * partialCollectSmallHeapBlockReuseMinFreeBytes and
   * uncollectedNewPageCountPartialCollect, if it got that far (None = left
   * unchanged), with the ratio it computed for them.
   */
  datatype Adjustment = Adjustment(
    approved: bool,
    reuseMinFreeBytes: Option<nat>,
    newPageCount: Option<nat>,
    ratio: Option<real>)

  /**
   * The heuristic, in the order of the source: efficacy floor, rescan
   * recheck, uncollected-bytes ceiling (only during a partial collect), then
   * the final budget check.  The reuse minimum is written before the rescan
   * recheck and the page threshold before the budget check, so a late
   * rejection still leaves them written.
   */
  function AdjustPartialHeuristics(h: SweepStats, t: Tuning): (r: Adjustment)
    requires ValidTuning(t) && ValidStats(h)
    ensures r.reuseMinFreeBytes.Some? ==> r.reuseMinFreeBytes.value <= PageSize
    ensures r.newPageCount.Some? ==>
              MinPartialUncollectedNewPageCount <= r.newPageCount.value <= t.maxPartialUncollectedNewPageCount
    ensures r.ratio.Some? ==> 0.0 <= r.ratio.value <= 1.0
    ensures r.newPageCount.Some? <==> r.ratio.Some?
    ensures r.newPageCount.Some? ==> r.reuseMinFreeBytes.Some?
    ensures r.approved ==> r.newPageCount.Some?
    ensures r.approved ==>
              r.newPageCount.value * PageSize + h.nextPartialUncollectedAllocBytes
                < t.maxUncollectedAllocBytesPartialCollect
  {
    var efficacy := CollectEfficacy(h.allocBytes, h.freedBytes);
    if h.allocBytes > 0 && efficacy < MinPartialCollectEfficacy then
      Adjustment(false, None, None, None)
    else
      var reuseMin := ReuseMinFreeBytes(h);
      if RescanTooCostly(h) then
        Adjustment(false, Some(reuseMin), None, None)
      else if UncollectedTooHigh(h, t) then
        Adjustment(false, Some(reuseMin), None, None)
      else
        var ratio := HeuristicRatio(h, t);
        var pages := NewPageCount(ratio, t);
        var fits := ProjectedUncollectedBytes(h, t) < t.maxUncollectedAllocBytesPartialCollect;
        Adjustment(fits, Some(reuseMin), Some(pages), Some(ratio))
  }

  /** No allocation: efficacy counts as 1 and every page may be reused (minimum 0). */
  lemma ZeroAllocationReusesAllPages(h: SweepStats, t: Tuning)
    requires ValidTuning(t) && ValidStats(h) && h.allocBytes == 0
    ensures !BelowEfficacyFloor(h) && AdjustedEfficacy(h) == 1.0
    ensures AdjustPartialHeuristics(h, t).reuseMinFreeBytes == Some(0)
    ensures EstimatedPartialReuseBytes(h.reuseHeapBlockCount, AdjustedEfficacy(h)) == 0
  {
  }

  /** Under 10% freed: rejected before anything is written; at or over 10%: the reuse minimum is written. */
  lemma EfficacyFloorRejects(h: SweepStats, t: Tuning)
    requires ValidTuning(t) && ValidStats(h)
    ensures BelowEfficacyFloor(h) ==> AdjustPartialHeuristics(h, t) == Adjustment(false, None, None, None)
    ensures !BelowEfficacyFloor(h) ==> AdjustPartialHeuristics(h, t).reuseMinFreeBytes == Some(ReuseMinFreeBytes(h))
  {
  }

  /** max(rescanRootBytes, estimated reuse bytes) over 5 MB rejects, without writing the page threshold. */
  lemma RescanRecheckRejects(h: SweepStats, t: Tuning)
    requires ValidTuning(t) && ValidStats(h) && !BelowEfficacyFloor(h)
    requires Max(h.rescanRootBytes, EstimatedPartialReuseBytes(h.reuseHeapBlockCount, AdjustedEfficacy(h)))
               > MaxPartialCollectRescanRootBytes
    ensures !AdjustPartialHeuristics(h, t).approved
    ensures AdjustPartialHeuristics(h, t).newPageCount == None
  {
  }

  /** During a partial collect, next uncollected bytes over the trigger reject. */
  lemma UncollectedCeilingRejects(h: SweepStats, t: Tuning)
    requires ValidTuning(t) && ValidStats(h)
    requires h.inPartialCollect && h.nextPartialUncollectedAllocBytes > t.maxUncollectedAllocBytesPartialCollect
    ensures !AdjustPartialHeuristics(h, t).approved
    ensures AdjustPartialHeuristics(h, t).newPageCount == None
  {
  }

  /**
   * Past the three earlier checks, the outcome is exactly the budget check:
   * approved iff newPageCount * PageSize + next + reused bytes stays under the
   * full-collect trigger.
   */
  lemma BudgetCheckDecides(h: SweepStats, t: Tuning)
    requires ValidTuning(t) && ValidStats(h) && !BelowEfficacyFloor(h)
    requires !RescanTooCostly(h) && !UncollectedTooHigh(h, t)
    ensures AdjustPartialHeuristics(h, t).newPageCount == Some(NewPageCount(HeuristicRatio(h, t), t))
    ensures AdjustPartialHeuristics(h, t).approved <==>
              NewPageCount(HeuristicRatio(h, t), t) * PageSize + h.nextPartialUncollectedAllocBytes
                + EstimatedPartialReusedFreeByteCount(h.reuseByteCount, AdjustedEfficacy(h)) < t.maxUncollectedAllocBytesPartialCollect
  {
  }

  /**
   * The four rejection conditions are the only ones: the heuristic approves
   * iff none of them holds.
   */
  lemma ApprovedIffNoRejection(h: SweepStats, t: Tuning)
    requires ValidTuning(t) && ValidStats(h)
    ensures AdjustPartialHeuristics(h, t).approved <==>
              && !BelowEfficacyFloor(h)
              && !RescanTooCostly(h)
              && !UncollectedTooHigh(h, t)
              && ProjectedUncollectedBytes(h, t) < t.maxUncollectedAllocBytesPartialCollect
  {
  }

  /**
   * A partial collect under pressure never lowers the ratio, so it never
   * lowers the new-page threshold below what a fresh partial collect with the
   * same counters would get.
   */
  lemma {:induction false} PressureRaisesThreshold(h: SweepStats, t: Tuning)
    requires ValidTuning(t) && ValidStats(h) && !BelowEfficacyFloor(h)
    requires !RescanTooCostly(h) && !UncollectedTooHigh(h, t)
    ensures NewPageCount(HeuristicRatio(h.(inPartialCollect := false), t), t)
              <= NewPageCount(HeuristicRatio(h, t), t)
  {
    var h0 := h.(inPartialCollect := false);
    assert AdjustedEfficacy(h0) == AdjustedEfficacy(h);
    assert NewRescanRootBytes(h0) == NewRescanRootBytes(h);
    var r0, r := HeuristicRatio(h0, t), HeuristicRatio(h, t);
    assert r0 <= r;
    NewPageCountMonotonic(r0, r, t);
  }

  /** The new-page threshold grows with the ratio. */
  lemma NewPageCountMonotonic(r0: real, r1: real, t: Tuning)
    requires ValidTuning(t) && 0.0 <= r0 <= r1 <= 1.0
    ensures NewPageCount(r0, t) <= NewPageCount(r1, t)
  {
    var span := (t.maxPartialUncollectedNewPageCount - MinPartialUncollectedNewPageCount) as real;
    MulMonotonic(span, 0.0, r0);
    MulMonotonic(span, r0, r1);
    FloorNatMonotonic(span * r0, span * r1);
  }
}
