/** The heap operations on abstract heaps, and what every run of them keeps. */
module HeapModel {
  import opened Basics
  import opened HeapSpec

  /** The blocks between the two sentinel chunks, the free lists and the three counters, which count
      without bound here; the kernel keeps them modulo 2^32. */
  datatype Heap = Heap(base: int, limit: int, blocks: seq<Block>, bins: seq<seq<int>>,
                       memFree: int, memUsed: int, memMeta: int)

  /** Block and free-list structure. The sentinels occupy the CHUNK_SIZE bytes on either side. */
  ghost predicate Well(h: Heap) {
    && CHUNK_SIZE < h.base
    && h.base % ALIGN == 0
    && h.limit + CHUNK_SIZE < WORD
    && Tiles(h.blocks, h.base, h.limit)
    && BinsAgree(h.blocks, h.bins)
  }

  ghost predicate Inv(h: Heap) {
    Well(h) && NoFreeNeighbours(h.blocks)
  }

  lemma BlockInWell(h: Heap, i: nat)
    requires Well(h) && i < |h.blocks|
    ensures GoodSize(h.blocks[i])
    ensures h.base <= h.blocks[i].addr && h.blocks[i].End() <= h.limit
    ensures 0 <= Slot(h.blocks[i].size) < NUM_SIZES
    ensures IndexOf(h.blocks, h.blocks[i].addr) == i
  {
    WithinRange(h.blocks, h.base, h.limit, i);
    assert GoodSize(h.blocks[i]);
    SlotBelow32(h.blocks[i].size);
    IndexOfAt(h.blocks, h.base, h.limit, i);
  }

  // ----- the steps ------------------------------------------------------------------------------

  /** Take block i out of its free list. */
  function Detach(h: Heap, i: nat): (r: Heap)
    requires Well(h) && i < |h.blocks| && !h.blocks[i].used
    ensures Well(r)
  {
    BlockInWell(h, i);
    TakeAgrees(h.blocks, h.bins, h.base, h.limit, i);
    MarkTiles(h.blocks, h.base, h.limit, i, true);
    h.(blocks := Mark(h.blocks, i, true),
       bins := TakeBin(h.bins, Slot(h.blocks[i].size), h.blocks[i].addr))
  }

  /** Put block i at the head of the free list of its class. */
  function Attach(h: Heap, i: nat): (r: Heap)
    requires Well(h) && i < |h.blocks| && h.blocks[i].used
    ensures Well(r)
  {
    BlockInWell(h, i);
    PutAgrees(h.blocks, h.bins, h.base, h.limit, i);
    MarkTiles(h.blocks, h.base, h.limit, i, false);
    h.(blocks := Mark(h.blocks, i, false),
       bins := PutBin(h.bins, Slot(h.blocks[i].size), h.blocks[i].addr))
  }

  function RemoveFree(h: Heap, i: nat): (r: Heap)
    requires Well(h) && i < |h.blocks| && !h.blocks[i].used
    ensures Well(r)
  {
    Detach(h, i).(memFree := h.memFree - (h.blocks[i].size - HEADER_SIZE))
  }

  function PushFree(h: Heap, i: nat): (r: Heap)
    requires Well(h) && i < |h.blocks| && h.blocks[i].used
    ensures Well(r)
  {
    Attach(h, i).(memFree := h.memFree + (h.blocks[i].size - HEADER_SIZE))
  }

  /** Block i swallows its right neighbour; both are out of the free lists. */
  function Absorb(h: Heap, i: nat): (r: Heap)
    requires Well(h) && i + 1 < |h.blocks| && h.blocks[i].used && h.blocks[i + 1].used
    ensures Well(r)
  {
    MergeTiles(h.blocks, h.base, h.limit, i);
    assert forall n :: 0 <= n < NUM_SIZES ==> FreeAddrs(Merge(h.blocks, i), n) == FreeAddrs(h.blocks, n) by {
      forall n | 0 <= n < NUM_SIZES ensures FreeAddrs(Merge(h.blocks, i), n) == FreeAddrs(h.blocks, n) {
        MergeFree(h.blocks, i, n);
      }
    }
    h.(blocks := Merge(h.blocks, i),
       memMeta := h.memMeta - HEADER_SIZE,
       memFree := h.memFree + HEADER_SIZE)
  }

  function Carve(h: Heap, i: nat, size: int): (r: Heap)
    requires Well(h) && i < |h.blocks| && h.blocks[i].used
    requires size >= MIN_SIZE && size % ALIGN == 0 && size + CHUNK_SIZE <= h.blocks[i].size
    ensures Well(r)
  {
    SplitTiles(h.blocks, h.base, h.limit, i, size);
    assert forall n :: 0 <= n < NUM_SIZES ==> FreeAddrs(Split(h.blocks, i, size), n) == FreeAddrs(h.blocks, n) by {
      forall n | 0 <= n < NUM_SIZES ensures FreeAddrs(Split(h.blocks, i, size), n) == FreeAddrs(h.blocks, n) {
        SplitFree(h.blocks, i, size, n);
      }
    }
    h.(blocks := Split(h.blocks, i, size))
  }

  // ----- allocation -----------------------------------------------------------------------------

  /** The first non-empty class from n on, NUM_SIZES when there is none. */
  function FirstBin(bins: seq<seq<int>>, n: nat): (m: nat)
    requires |bins| == NUM_SIZES
    ensures n <= m || m == NUM_SIZES
    ensures m <= NUM_SIZES
    ensures m < NUM_SIZES ==> bins[m] != []
    ensures forall k :: n <= k < m ==> bins[k] == []
    decreases NUM_SIZES - n
  {
    if n >= NUM_SIZES then NUM_SIZES
    else if bins[n] != [] then n
    else FirstBin(bins, n + 1)
  }

  lemma FreeBlockOf(h: Heap, m: nat, a: int)
    requires Well(h) && m < NUM_SIZES && a in h.bins[m]
    ensures var i := IndexOf(h.blocks, a);
      i < |h.blocks| && !h.blocks[i].used && h.blocks[i].addr == a
      && GoodSize(h.blocks[i]) && Slot(h.blocks[i].size) == m
  {
    assert a in Elements(h.bins[m]);
    assert a in FreeAddrs(h.blocks, m);
    var b :| b in h.blocks && !b.used && b.size > 0 && Slot(b.size) == m && b.addr == a;
    var k :| 0 <= k < |h.blocks| && h.blocks[k] == b;
    BlockInWell(h, k);
  }

  /** The class that a request starts its search in. */
  function StartClass(request: nat): nat {
    ClassFor(RoundedSize(request))
  }

  /** Index of the block that a request takes, if any class has one. */
  function ChosenIndex(h: Heap, request: nat): (i: nat)
    requires Well(h) && FirstBin(h.bins, StartClass(request)) < NUM_SIZES
    ensures i < |h.blocks| && !h.blocks[i].used && GoodSize(h.blocks[i])
    ensures Slot(h.blocks[i].size) == FirstBin(h.bins, StartClass(request))
    ensures h.blocks[i].addr == h.bins[FirstBin(h.bins, StartClass(request))][0]
  {
    var m := FirstBin(h.bins, StartClass(request));
    FreeBlockOf(h, m, h.bins[m][0]);
    IndexOf(h.blocks, h.bins[m][0])
  }

  lemma ChosenIsLargeEnough(h: Heap, request: nat)
    requires Well(h) && request < WORD && FirstBin(h.bins, StartClass(request)) < NUM_SIZES
    ensures h.blocks[ChosenIndex(h, request)].size >= Pow2(StartClass(request)) >= RoundedSize(request)
  {
    RoundedSizeBounds(request);
    ClassForIsCeiling(RoundedSize(request));
    var i := ChosenIndex(h, request);
    SlotBounds(h.blocks[i].size);
    Pow2Monotone(StartClass(request), Slot(h.blocks[i].size));
  }

  /** The heap after kmalloc(request), and the address handed out (0 for NULL). */
  function Malloc(h: Heap, request: nat): (r: (Heap, int))
    requires Well(h) && request < WORD
    ensures Well(r.0)
  {
    if FirstBin(h.bins, StartClass(request)) >= NUM_SIZES then (h, 0)
    else
      var size := RoundedSize(request);
      var i := ChosenIndex(h, request);
      var size2 := h.blocks[i].size;
      var h1 := Detach(h, i);
      if size + CHUNK_SIZE <= size2 then
        RoundedSizeBounds(request);
        var h2 := Attach(Carve(h1, i, size), i + 1);
        var len := size2 - size - HEADER_SIZE;
        (h2.(memMeta := h.memMeta + HEADER_SIZE,
             memFree := h.memFree + (len - HEADER_SIZE) - size2,
             memUsed := h.memUsed + (size2 - len - HEADER_SIZE)),
         h.blocks[i].Ptr())
      else
        (h1.(memFree := h.memFree - size2,
             memUsed := h.memUsed + (size2 - HEADER_SIZE)),
         h.blocks[i].Ptr())
  }

  // ----- release --------------------------------------------------------------------------------

  /** ptr was handed out and is not released yet. */
  predicate Live(h: Heap, ptr: int) {
    var i := IndexOf(h.blocks, ptr - HEADER_SIZE);
    i < |h.blocks| && h.blocks[i].used
  }

  function FreeWithNext(h: Heap, i: nat): (r: Heap)
    requires Well(h) && i < |h.blocks| && h.blocks[i].used
    ensures Well(r) && i < |r.blocks| && r.blocks[i].used && r.blocks[i].addr == h.blocks[i].addr
    ensures r.blocks[..i] == h.blocks[..i]
  {
    if i + 1 < |h.blocks| && !h.blocks[i + 1].used then Absorb(RemoveFree(h, i + 1), i) else h
  }

  function FreeWithPrev(h: Heap, i: nat): (r: Heap)
    requires Well(h) && i < |h.blocks| && h.blocks[i].used
    ensures Well(r)
  {
    if i > 0 && !h.blocks[i - 1].used then PushFree(Absorb(RemoveFree(h, i - 1), i - 1), i - 1)
    else PushFree(h, i)
  }

  /** The heap after kfree(ptr). */
  function Free(h: Heap, ptr: int): (r: Heap)
    requires Well(h) && Live(h, ptr)
    ensures Well(r)
  {
    var i := IndexOf(h.blocks, ptr - HEADER_SIZE);
    FreeWithPrev(FreeWithNext(h.(memUsed := h.memUsed - h.blocks[i].size), i), i)
  }
}
