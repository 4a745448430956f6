/** What kmalloc and kfree promise together. */
module HeapTheorems {
  import opened Basics
  import opened HeapSpec
  import opened HeapModel

  // ----- the block layout after one operation ---------------------------------------------------

  /** The length of the block that a request gets out of a chosen block of size2 bytes. */
  function GrantedSize(request: nat, size2: int): int {
    if RoundedSize(request) + CHUNK_SIZE <= size2 then RoundedSize(request) else size2
  }

  /** The free block left behind by a split, if there is one. */
  function Remainder(b: Block, size: int): seq<Block> {
    if size + CHUNK_SIZE <= b.size then [Block(b.Ptr() + size, b.size - size - HEADER_SIZE, false)] else []
  }

  lemma GrantedSizeBounds(request: nat, size2: int)
    requires RoundedSize(request) <= size2
    ensures RoundedSize(request) <= GrantedSize(request, size2) <= size2
  {
  }

  function Granted(bs: seq<Block>, i: nat, request: nat): seq<Block>
    requires i < |bs|
  {
    bs[..i] + [Block(bs[i].addr, GrantedSize(request, bs[i].size), true)]
    + Remainder(bs[i], RoundedSize(request)) + bs[i + 1..]
  }

  lemma SplitMarked(bs: seq<Block>, i: nat, request: nat)
    requires i < |bs|
    ensures RoundedSize(request) + CHUNK_SIZE <= bs[i].size ==>
              Mark(Split(Mark(bs, i, true), i, RoundedSize(request)), i + 1, false) == Granted(bs, i, request)
    ensures RoundedSize(request) + CHUNK_SIZE > bs[i].size ==> Mark(bs, i, true) == Granted(bs, i, request)
  {
  }

  lemma MallocLayout(h: Heap, request: nat)
    requires Well(h) && request < WORD && FirstBin(h.bins, StartClass(request)) < NUM_SIZES
    ensures Malloc(h, request).1 == h.blocks[ChosenIndex(h, request)].Ptr()
    ensures Malloc(h, request).0.blocks == Granted(h.blocks, ChosenIndex(h, request), request)
  {
    SplitMarked(h.blocks, ChosenIndex(h, request), request);
    RoundedSizeBounds(request);
  }

  /** kmalloc as the steps it is made of. */
  lemma MallocSteps(h: Heap, request: nat)
    requires Well(h) && request < WORD && FirstBin(h.bins, StartClass(request)) < NUM_SIZES
    ensures RoundedSize(request) >= MIN_SIZE && RoundedSize(request) % ALIGN == 0
    ensures var i := ChosenIndex(h, request); var d := Detach(h, i);
      var size, size2 := RoundedSize(request), h.blocks[i].size;
      && d.blocks[i] == h.blocks[i].(used := true)
      && (size + CHUNK_SIZE <= size2 ==>
            var len := size2 - size - HEADER_SIZE;
            Malloc(h, request).0
            == Attach(Carve(d, i, size), i + 1).(memMeta := h.memMeta + HEADER_SIZE,
                 memFree := h.memFree + (len - HEADER_SIZE) - size2,
                 memUsed := h.memUsed + (size2 - len - HEADER_SIZE)))
      && (size + CHUNK_SIZE > size2 ==>
            Malloc(h, request).0
            == d.(memFree := h.memFree - size2, memUsed := h.memUsed + (size2 - HEADER_SIZE)))
  {
    RoundedSizeBounds(request);
  }

  lemma SuccessMeansChosen(h: Heap, request: nat)
    requires Well(h) && request < WORD
    ensures Malloc(h, request).1 != 0 <==> FirstBin(h.bins, StartClass(request)) < NUM_SIZES
    ensures Malloc(h, request).1 == 0 ==> Malloc(h, request).0 == h
  {
    if FirstBin(h.bins, StartClass(request)) < NUM_SIZES {
      MallocLayout(h, request);
      BlockInWell(h, ChosenIndex(h, request));
    }
  }

  /** First and last of the blocks that a release of block i melts into one. */
  function MeltFrom(bs: seq<Block>, i: nat): nat
    requires i < |bs|
  {
    if i > 0 && !bs[i - 1].used then i - 1 else i
  }

  function MeltTo(bs: seq<Block>, i: nat): nat
    requires i < |bs|
  {
    if i + 1 < |bs| && !bs[i + 1].used then i + 1 else i
  }

  function Melted(bs: seq<Block>, i: nat): Block
    requires i < |bs|
  {
    var from, to := MeltFrom(bs, i), MeltTo(bs, i);
    Block(bs[from].addr, bs[to].End() - bs[from].Ptr(), false)
  }

  function WithNext(bs: seq<Block>, i: nat): seq<Block>
    requires i < |bs|
  {
    bs[..i] + [bs[i].(size := bs[MeltTo(bs, i)].End() - bs[i].Ptr())] + bs[MeltTo(bs, i) + 1..]
  }

  function WithPrev(bs: seq<Block>, i: nat): seq<Block>
    requires i < |bs|
  {
    var from := MeltFrom(bs, i);
    bs[..from] + [Block(bs[from].addr, bs[i].End() - bs[from].Ptr(), false)] + bs[i + 1..]
  }

  function Released(bs: seq<Block>, i: nat): seq<Block>
    requires i < |bs|
  {
    bs[..MeltFrom(bs, i)] + [Melted(bs, i)] + bs[MeltTo(bs, i) + 1..]
  }

  lemma NextLayout(h: Heap, i: nat)
    requires Well(h) && i < |h.blocks| && h.blocks[i].used
    ensures FreeWithNext(h, i).blocks == WithNext(h.blocks, i)
  {
  }

  lemma PrevLayout(h: Heap, i: nat)
    requires Well(h) && i < |h.blocks| && h.blocks[i].used
    ensures FreeWithPrev(h, i).blocks == WithPrev(h.blocks, i)
  {
  }

  lemma ReleasedByParts(bs: seq<Block>, i: nat)
    requires i < |bs|
    ensures i < |WithNext(bs, i)| && WithPrev(WithNext(bs, i), i) == Released(bs, i)
  {
    var mid := WithNext(bs, i);
    assert MeltFrom(mid, i) == MeltFrom(bs, i);
    assert mid[i + 1..] == bs[MeltTo(bs, i) + 1..];
    assert mid[..MeltFrom(mid, i)] == bs[..MeltFrom(bs, i)];
  }

  lemma ReleaseLayout(h: Heap, i: nat)
    requires Well(h) && i < |h.blocks| && h.blocks[i].used
    ensures FreeWithPrev(FreeWithNext(h, i), i).blocks == Released(h.blocks, i)
  {
    NextLayout(h, i);
    PrevLayout(FreeWithNext(h, i), i);
    ReleasedByParts(h.blocks, i);
  }

  /** A release replaces the block and its free neighbours by the one free block that spans them. */
  lemma FreeLayout(h: Heap, ptr: int)
    requires Well(h) && Live(h, ptr)
    ensures Free(h, ptr).blocks == Released(h.blocks, IndexOf(h.blocks, ptr - HEADER_SIZE))
  {
    var i := IndexOf(h.blocks, ptr - HEADER_SIZE);
    ReleaseLayout(h.(memUsed := h.memUsed - h.blocks[i].size), i);
  }

  /** kfree as the steps it is made of. */
  lemma FreeSteps(h: Heap, ptr: int, i: nat)
    requires Well(h) && Live(h, ptr) && i == IndexOf(h.blocks, ptr - HEADER_SIZE)
    ensures var h0 := h.(memUsed := h.memUsed - h.blocks[i].size);
      Well(h0) && Free(h, ptr) == FreeWithPrev(FreeWithNext(h0, i), i)
  {
    hide FreeWithNext, FreeWithPrev, Tiles, BinsAgree;
  }

  // ----- the invariant --------------------------------------------------------------------------

  lemma GrantedNeighbours(bs: seq<Block>, i: nat, request: nat)
    requires NoFreeNeighbours(bs) && i < |bs| && !bs[i].used
    ensures NoFreeNeighbours(Granted(bs, i, request))
  {
    var t := Granted(bs, i, request);
    var extra := |Remainder(bs[i], RoundedSize(request))|;
    assert t[i].used;
    forall k | 0 <= k < |t| - 1 ensures t[k].used || t[k + 1].used {
      if k < i {
        assert t[k] == bs[k];
        if k + 1 < i { assert t[k + 1] == bs[k + 1]; }
      } else if k > i {
        assert t[k + 1] == bs[k + 1 - extra];
        if k > i + extra { assert t[k] == bs[k - extra]; }
      }
    }
  }

  lemma ReleasedNeighbours(bs: seq<Block>, i: nat)
    requires NoFreeNeighbours(bs) && i < |bs| && bs[i].used
    ensures NoFreeNeighbours(Released(bs, i))
  {
    var from, to := MeltFrom(bs, i), MeltTo(bs, i);
    var t := Released(bs, i);
    assert from > 0 ==> bs[from - 1].used;
    assert to + 1 < |bs| ==> bs[to + 1].used;
    forall k | 0 <= k < |t| - 1 ensures t[k].used || t[k + 1].used {
      if k < from {
        assert t[k] == bs[k];
        if k + 1 < from { assert t[k + 1] == bs[k + 1]; }
      } else {
        assert t[k + 1] == bs[k + 1 + to - from];
        if k > from { assert t[k] == bs[k + to - from]; }
      }
    }
  }

  lemma MallocKeepsInv(h: Heap, request: nat)
    requires Inv(h) && request < WORD
    ensures Inv(Malloc(h, request).0)
    ensures Malloc(h, request).0.base == h.base && Malloc(h, request).0.limit == h.limit
  {
    SuccessMeansChosen(h, request);
    if Malloc(h, request).1 != 0 {
      MallocLayout(h, request);
      GrantedNeighbours(h.blocks, ChosenIndex(h, request), request);
    }
  }

  lemma FreeKeepsInv(h: Heap, ptr: int)
    requires Inv(h) && Live(h, ptr)
    ensures Inv(Free(h, ptr))
    ensures Free(h, ptr).base == h.base && Free(h, ptr).limit == h.limit
  {
    FreeLayout(h, ptr);
    ReleasedNeighbours(h.blocks, IndexOf(h.blocks, ptr - HEADER_SIZE));
  }

  // ----- live blocks ----------------------------------------------------------------------------

  function LiveBlocks(bs: seq<Block>): set<Block> {
    set b | b in bs && b.used
  }

  /** The live block that ptr points into the head of. */
  function LiveBlock(h: Heap, ptr: int): Block
    requires Live(h, ptr)
  {
    h.blocks[IndexOf(h.blocks, ptr - HEADER_SIZE)]
  }

  lemma LiveIffListed(h: Heap, b: Block)
    requires Well(h)
    ensures b in LiveBlocks(h.blocks) <==> Live(h, b.Ptr()) && LiveBlock(h, b.Ptr()) == b
  {
    hide Tiles, BinsAgree;
    if b in LiveBlocks(h.blocks) {
      var k :| 0 <= k < |h.blocks| && h.blocks[k] == b;
      BlockInWell(h, k);
    }
  }

  lemma OutsideNeverLive(h: Heap, ptr: int)
    requires Well(h) && (ptr < h.base + HEADER_SIZE || h.limit < ptr)
    ensures !Live(h, ptr)
  {
    if Live(h, ptr) {
      BlockInWell(h, IndexOf(h.blocks, ptr - HEADER_SIZE));
      assert false;
    }
  }

  /** kmalloc's NULL is no block, so kfree's contract does not cover it. */
  lemma NullNeverLive(h: Heap)
    requires Well(h)
    ensures !Live(h, 0)
  {
    OutsideNeverLive(h, 0);
  }

  ghost predicate Disjoint(a: Block, b: Block) {
    a.End() <= b.addr || b.End() <= a.addr
  }

  lemma BlocksDisjoint(h: Heap, a: Block, b: Block)
    requires Well(h) && a in h.blocks && b in h.blocks && a != b
    ensures Disjoint(a, b)
  {
    var i :| 0 <= i < |h.blocks| && h.blocks[i] == a;
    var j :| 0 <= j < |h.blocks| && h.blocks[j] == b;
    if i < j {
      Ordered(h.blocks, h.base, h.limit, i, j);
    } else {
      Ordered(h.blocks, h.base, h.limit, j, i);
    }
  }

  lemma GrantedLive(bs: seq<Block>, i: nat, request: nat)
    requires i < |bs| && !bs[i].used
    ensures LiveBlocks(Granted(bs, i, request))
         == LiveBlocks(bs) + {Block(bs[i].addr, GrantedSize(request, bs[i].size), true)}
  {
    assert bs == bs[..i] + [bs[i]] + bs[i + 1..];
  }

  lemma GrantedBlock(h: Heap, request: nat)
    requires Well(h) && request < WORD && Malloc(h, request).1 != 0
    ensures FirstBin(h.bins, StartClass(request)) < NUM_SIZES
    ensures var (r, ptr) := Malloc(h, request);
      var b := h.blocks[ChosenIndex(h, request)];
      Live(r, ptr) && LiveBlock(r, ptr) == Block(b.addr, GrantedSize(request, b.size), true)
  {
    SuccessMeansChosen(h, request);
    MallocLayout(h, request);
    var i := ChosenIndex(h, request);
    var r := Malloc(h, request).0;
    assert r.blocks[i] == Block(h.blocks[i].addr, GrantedSize(request, h.blocks[i].size), true);
    BlockInWell(r, i);
  }

  /** The block handed out lies in the heap, is aligned and at least as long as the rounded size. */
  lemma MallocGrants(h: Heap, request: nat)
    requires Inv(h) && request < WORD && Malloc(h, request).1 != 0
    ensures var (r, ptr) := Malloc(h, request);
      && Live(r, ptr) && !Live(h, ptr) && ptr % ALIGN == 0
      && LiveBlock(r, ptr).size >= RoundedSize(request)
      && h.base <= ptr - HEADER_SIZE && LiveBlock(r, ptr).End() <= h.limit
  {
    hide Malloc, Granted, RoundedSize, NoFreeNeighbours, BinsAgree, Tiles, StartClass;
    GrantedBlock(h, request);
    ChosenIsLargeEnough(h, request);
    var i := ChosenIndex(h, request);
    BlockInWell(h, i);
    GrantedSizeBounds(request, h.blocks[i].size);
    MallocLayout(h, request);
    AlignedPtr(h.blocks[i]);
  }

  lemma AlignedPtr(b: Block)
    requires b.addr % ALIGN == 0
    ensures b.Ptr() % ALIGN == 0
  {
  }

  /** A successful request adds exactly the granted block to the live blocks, so no live block moves
      or changes its size, and the granted block overlaps none of them. */
  lemma MallocAddsOneLive(h: Heap, request: nat)
    requires Inv(h) && request < WORD && Malloc(h, request).1 != 0
    ensures var (r, ptr) := Malloc(h, request);
      && Live(r, ptr)
      && LiveBlocks(r.blocks) == LiveBlocks(h.blocks) + {LiveBlock(r, ptr)}
      && forall b :: b in LiveBlocks(h.blocks) ==> Disjoint(b, LiveBlock(r, ptr))
  {
    SuccessMeansChosen(h, request);
    MallocGrants(h, request);
    MallocLayout(h, request);
    var i := ChosenIndex(h, request);
    var (r, ptr) := Malloc(h, request);
    GrantedLive(h.blocks, i, request);
    assert r.blocks[i] == Block(h.blocks[i].addr, GrantedSize(request, h.blocks[i].size), true);
    BlockInWell(r, i);
    LiveIffListed(r, LiveBlock(r, ptr));
    forall b | b in LiveBlocks(h.blocks) ensures Disjoint(b, LiveBlock(r, ptr)) {
      LiveIffListed(h, b);
      BlocksDisjoint(r, b, LiveBlock(r, ptr));
    }
  }

  lemma NoLargeFree(h: Heap, n: nat, b: Block)
    requires Well(h) && FirstBin(h.bins, n) == NUM_SIZES && b in h.blocks && !b.used
    ensures b.size < Pow2(n)
  {
    hide Tiles, Pow2, Slot;
    var k :| 0 <= k < |h.blocks| && h.blocks[k] == b;
    BlockInWell(h, k);
    SlotBounds(b.size);
    assert b.addr in FreeAddrs(h.blocks, Slot(b.size));
    assert b.addr in Elements(h.bins[Slot(b.size)]);
    assert Slot(b.size) < n;
    Pow2Monotone(Slot(b.size) + 1, n);
  }

  /** kmalloc answers NULL exactly when no free block reaches the least power of two that is not below
      the least multiple of 4, from 8 on, that is not below the request. */
  lemma MallocSucceedsIff(h: Heap, request: nat, size: nat, n: nat)
    requires Well(h) && request < WORD && RoundsTo(request, size) && LeastPower(size, n)
    ensures Malloc(h, request).1 != 0 <==> exists b :: b in h.blocks && !b.used && b.size >= Pow2(n)
  {
    RoundedSizeBounds(request);
    RoundedSizeIff(request, size);
    ClassForIff(size, n);
    SuccessMeansChosen(h, request);
    if Malloc(h, request).1 != 0 {
      ChosenIsLargeEnough(h, request);
      assert h.blocks[ChosenIndex(h, request)] in h.blocks;
    } else {
      forall b | b in h.blocks && !b.used ensures b.size < Pow2(n) {
        NoLargeFree(h, n, b);
      }
    }
  }

  /** Which free block a successful request takes, and what becomes of it: one of the least power of two
      among those that reach the power required; it is cut to the size required if what is left over holds
      a chunk of its own, which stays free right behind, and else handed out whole. */
  lemma MallocCuts(h: Heap, request: nat, size: nat, n: nat) returns (c: Block)
    requires Inv(h) && request < WORD && Malloc(h, request).1 != 0 && RoundsTo(request, size) && LeastPower(size, n)
    ensures c in h.blocks && !c.used && c.addr + 12 == Malloc(h, request).1 && c.size >= Pow2(n)
    ensures forall b, k: nat :: b in h.blocks && !b.used && b.size >= Pow2(n) && c.size >= Pow2(k) ==> b.size >= Pow2(k)
    ensures var (r, ptr) := Malloc(h, request);
      && Live(r, ptr)
      && LiveBlock(r, ptr) == Block(c.addr, if size + 20 <= c.size then size else c.size, true)
      && (size + 20 <= c.size ==> Block(ptr + size, c.size - size - 12, false) in r.blocks)
  {
    hide Malloc, Well, NoFreeNeighbours, Pow2, RoundedSize, ClassFor, FirstBin, RoundsTo, LeastPower;
    RoundedSizeBounds(request);
    RoundedSizeIff(request, size);
    ClassForIff(size, n);
    GrantedBlock(h, request);
    ChosenIsLargeEnough(h, request);
    MallocLayout(h, request);
    var i := ChosenIndex(h, request);
    c := h.blocks[i];
    assert c in h.blocks;
    if size + CHUNK_SIZE <= c.size {
      RemainderListed(h.blocks, i, request);
    }
    forall b, k: nat | b in h.blocks && !b.used && b.size >= Pow2(n) && c.size >= Pow2(k) ensures b.size >= Pow2(k) {
      LeastClass(h, n, c, b, k);
    }
  }

  lemma RemainderListed(bs: seq<Block>, i: nat, request: nat)
    requires i < |bs| && RoundedSize(request) + CHUNK_SIZE <= bs[i].size
    ensures Block(bs[i].Ptr() + RoundedSize(request), bs[i].size - RoundedSize(request) - HEADER_SIZE, false)
         in Granted(bs, i, request)
  {
    hide RoundedSize;
    assert Granted(bs, i, request)[i + 1] == Remainder(bs[i], RoundedSize(request))[0];
  }

  /** The first class from n on that has a block is the least of any free block that reaches 2^n. */
  lemma LeastClass(h: Heap, n: nat, c: Block, b: Block, k: nat)
    requires Well(h) && c.size > 0 && Slot(c.size) == FirstBin(h.bins, n) < NUM_SIZES
    requires b in h.blocks && !b.used && b.size >= Pow2(n) && c.size >= Pow2(k)
    ensures b.size >= Pow2(k)
  {
    hide Tiles, Pow2, Slot, FirstBin;
    var j :| 0 <= j < |h.blocks| && h.blocks[j] == b;
    BlockInWell(h, j);
    SlotBounds(b.size);
    SlotBounds(c.size);
    assert b.addr in FreeAddrs(h.blocks, Slot(b.size));
    assert b.addr in Elements(h.bins[Slot(b.size)]);
    if Slot(b.size) < n {
      Pow2Monotone(Slot(b.size) + 1, n);
    }
    if Slot(c.size) < k {
      Pow2Monotone(Slot(c.size) + 1, k);
    }
    Pow2Monotone(k, Slot(b.size));
  }

  /** The block granted is as long as asked exactly when the rounding did not wrap around. */
  lemma LargeEnoughIff(h: Heap, request: nat)
    requires Inv(h) && request < WORD && Malloc(h, request).1 != 0
    ensures Live(Malloc(h, request).0, Malloc(h, request).1)
    ensures LiveBlock(Malloc(h, request).0, Malloc(h, request).1).size >= request
       <==> request <= WORD - ALIGN
  {
    MallocGrants(h, request);
    RoundedSizeBounds(request);
  }

  lemma ReleasedLive(bs: seq<Block>, lo: int, hi: int, i: nat)
    requires Tiles(bs, lo, hi) && i < |bs| && bs[i].used
    ensures LiveBlocks(Released(bs, i)) == LiveBlocks(bs) - {bs[i]}
  {
    hide Tiles, Released;
    forall b: Block | b.used ensures b in LiveBlocks(Released(bs, i)) <==> b in LiveBlocks(bs) && b != bs[i] {
      StaysLive(bs, lo, hi, i, b);
    }
  }

  lemma StaysLive(bs: seq<Block>, lo: int, hi: int, i: nat, b: Block)
    requires Tiles(bs, lo, hi) && i < |bs| && bs[i].used && b.used
    ensures b in Released(bs, i) <==> b in bs && b != bs[i]
  {
    var from, to := MeltFrom(bs, i), MeltTo(bs, i);
    var t := Released(bs, i);
    if b in t {
      assert b in bs[..from] || b in bs[to + 1..];
      var k :| 0 <= k < |bs| && bs[k] == b && (k < from || k > to);
      if b == bs[i] { DistinctAddrs(bs, lo, hi, k, i); }
    }
    if b in bs && b != bs[i] {
      var k :| 0 <= k < |bs| && bs[k] == b;
      if k < from { assert t[k] == b; } else if k > to { assert t[k - (to - from)] == b; }
    }
  }

  /** A release takes exactly the released block out of the live blocks. */
  lemma FreeReleases(h: Heap, ptr: int)
    requires Inv(h) && Live(h, ptr)
    ensures LiveBlocks(Free(h, ptr).blocks) == LiveBlocks(h.blocks) - {LiveBlock(h, ptr)}
    ensures !Live(Free(h, ptr), ptr)
  {
    hide Free, Released, LiveBlocks, BinsAgree;
    FreeLayout(h, ptr);
    var i := IndexOf(h.blocks, ptr - HEADER_SIZE);
    var r := Free(h, ptr);
    ReleasedLive(h.blocks, h.base, h.limit, i);
    if Live(r, ptr) {
      var b := LiveBlock(r, ptr);
      LiveIffListed(r, b);
      LiveIffListed(h, b);
    }
  }
}
