/**
 * Heap blocks and the per-kind, per-size buckets they are merged into, as the
 * sweep session sees them.  The block kinds and size tiers form a closed
 * enumeration; a block list is a sequence of block references in list order.
 */
module HeapBlocks {

  /** Object kind of a block: leaf (no pointers), normal, finalizable, and the write-barrier variants. */
  datatype BlockKind = Leaf | Normal | Finalizable | NormalWithBarrier | FinalizableWithBarrier

  /** Size tier of a block. */
  datatype Tier = Small | Medium

  /** One block type: a kind in a tier (ten in all). */
  datatype BucketKind = BucketKind(kind: BlockKind, tier: Tier)

  /**
   * A heap block, owned by the heap.  Only the parts the sweep session
   * touches are modelled: its object size, its type, the allocation bytes not
   * yet accounted for, and the free bytes the sweep expects it to have.
   */
  class HeapBlock {
    const bucketKind: BucketKind
    const objectSize: nat
    var unaccountedAllocBytes: nat
    /** Bytes accounted into the partial totals since the last sweep (kept for the debug check). */
    var lastUncollectedAllocBytes: nat
    var expectedFreeBytes: nat

    constructor (bucketKind: BucketKind, objectSize: nat, unaccountedAllocBytes: nat, expectedFreeBytes: nat)
      ensures this.bucketKind == bucketKind && this.objectSize == objectSize
      ensures this.unaccountedAllocBytes == unaccountedAllocBytes
      ensures this.expectedFreeBytes == expectedFreeBytes
      ensures this.lastUncollectedAllocBytes == 0
    {
      this.bucketKind := bucketKind;
      this.objectSize := objectSize;
      this.unaccountedAllocBytes := unaccountedAllocBytes;
      this.expectedFreeBytes := expectedFreeBytes;
      this.lastUncollectedAllocBytes := 0;
    }

    predicate IsLeafBlock() {
      bucketKind.kind == Leaf
    }

    /** Returns the unaccounted allocation bytes and resets them. */
    method GetAndClearUnaccountedAllocBytes() returns (n: nat)
      modifies this`unaccountedAllocBytes
      ensures n == old(unaccountedAllocBytes) && unaccountedAllocBytes == 0
    {
      n := unaccountedAllocBytes;
      unaccountedAllocBytes := 0;
    }

    /** Forgets all allocation tracking so that it restarts for the next collection. */
    method ClearAllAllocBytes()
      modifies this`unaccountedAllocBytes, this`lastUncollectedAllocBytes
      ensures unaccountedAllocBytes == 0 && lastUncollectedAllocBytes == 0
    {
      unaccountedAllocBytes := 0;
      lastUncollectedAllocBytes := 0;
    }
  }

  /** A bucket: the blocks of one type whose objects have one size. */
  datatype BucketKey = BucketKey(bucketKind: BucketKind, objectSize: nat)

  type Buckets = map<BucketKey, seq<HeapBlock>>

  /** The block list of a bucket; a bucket never created is empty. */
  function Bucket(buckets: Buckets, key: BucketKey): seq<HeapBlock> {
    if key in buckets then buckets[key] else []
  }

  /**
   * The bucket's MergeNewHeapBlock: makes the block allocable by putting it
   * at the front of the list of the bucket for its type and object size.
   */
  function MergeNewHeapBlock(buckets: Buckets, k: BucketKind, b: HeapBlock): (r: Buckets)
    ensures Bucket(r, BucketKey(k, b.objectSize)) == [b] + Bucket(buckets, BucketKey(k, b.objectSize))
    ensures forall key :: key != BucketKey(k, b.objectSize) ==> Bucket(r, key) == Bucket(buckets, key)
  {
    var key := BucketKey(k, b.objectSize);
    buckets[key := [b] + Bucket(buckets, key)]
  }

  /** Merging every block of a pending list of type k, front to back. */
  function MergeAll(buckets: Buckets, k: BucketKind, list: seq<HeapBlock>): Buckets
    decreases |list|
  {
    if list == [] then buckets
    else MergeAll(MergeNewHeapBlock(buckets, k, list[0]), k, list[1..])
  }

  /** The blocks of a list whose objects have the given size, in list order. */
  function BlocksOfSize(list: seq<HeapBlock>, size: nat): (r: seq<HeapBlock>)
    ensures |r| <= |list|
    ensures forall b :: b in r ==> b in list && b.objectSize == size
  {
    if list == [] then []
    else (if list[0].objectSize == size then [list[0]] else []) + BlocksOfSize(list[1..], size)
  }

  /** A block occurs in the size-filtered list as often as in the list when its size matches, else never. */
  lemma {:induction false} BlocksOfSizeCount(list: seq<HeapBlock>, size: nat, b: HeapBlock)
    ensures multiset(BlocksOfSize(list, size))[b] == if b.objectSize == size then multiset(list)[b] else 0
  {
    if list != [] {
      BlocksOfSizeCount(list[1..], size, b);
      assert list == [list[0]] + list[1..];
    }
  }

  /**
   * Merging a list changes exactly the buckets of type k, and each of those
   * gains exactly the blocks of the list that have its object size.
   */
  lemma {:induction false} MergeAllBucket(buckets: Buckets, k: BucketKind, list: seq<HeapBlock>, key: BucketKey)
    ensures multiset(Bucket(MergeAll(buckets, k, list), key)) ==
              multiset(Bucket(buckets, key))
                + (if key.bucketKind == k then multiset(BlocksOfSize(list, key.objectSize)) else multiset{})
    decreases |list|
  {
    if list != [] {
      var merged := MergeNewHeapBlock(buckets, k, list[0]);
      MergeAllBucket(merged, k, list[1..], key);
      if key == BucketKey(k, list[0].objectSize) {
        assert multiset(Bucket(merged, key)) == multiset{list[0]} + multiset(Bucket(buckets, key));
      } else {
        assert Bucket(merged, key) == Bucket(buckets, key);
      }
    }
  }

  /**
   * No block is lost or duplicated: each block of the list lands, as often as
   * it occurs in the list, in the one bucket for its type and object size,
   * and no other bucket gains it.
   */
  lemma MergeAllPlacesEachBlockOnce(buckets: Buckets, k: BucketKind, list: seq<HeapBlock>,
                                    b: HeapBlock, key: BucketKey)
    ensures multiset(Bucket(MergeAll(buckets, k, list), key))[b] ==
              multiset(Bucket(buckets, key))[b]
                + (if key == BucketKey(k, b.objectSize) then multiset(list)[b] else 0)
  {
    MergeAllBucket(buckets, k, list, key);
    BlocksOfSizeCount(list, key.objectSize, b);
  }
}
