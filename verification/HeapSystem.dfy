/** Every run of kmalloc and kfree from a heap that was just set up. */
module HeapSystem {
  import opened HeapSpec
  import opened HeapModel
  import opened HeapTheorems
  import opened HeapCounters

  datatype Op = MallocOp(request: nat) | FreeOp(ptr: int)

  predicate Allowed(h: Heap, op: Op) {
    match op
    case MallocOp(request) => request < WORD
    case FreeOp(ptr) => Live(h, ptr)
  }

  function Apply(h: Heap, op: Op): (r: Heap)
    requires Inv(h) && Allowed(h, op)
    ensures Inv(r) && r.base == h.base && r.limit == h.limit
  {
    match op
    case MallocOp(request) => MallocKeepsInv(h, request); Malloc(h, request).0
    case FreeOp(ptr) => FreeKeepsInv(h, ptr); Free(h, ptr)
  }

  /** Performing ops in turn, each allowed when it is performed, leads from h to r. */
  ghost predicate Run(h: Heap, ops: seq<Op>, r: Heap)
    requires Inv(h)
    decreases |ops|
  {
    if ops == [] then h == r
    else Allowed(h, ops[0]) && Run(Apply(h, ops[0]), ops[1..], r)
  }

  /** How many requests of a run were served with a whole block. */
  ghost function UnsplitCount(h: Heap, ops: seq<Op>, r: Heap): nat
    requires Inv(h) && Run(h, ops, r)
    decreases |ops|
  {
    if ops == [] then 0
    else (if ops[0].MallocOp? && Unsplit(h, ops[0].request) then 1 else 0)
         + UnsplitCount(Apply(h, ops[0]), ops[1..], r)
  }

  // ----- setup ----------------------------------------------------------------------------------

  function Fresh(base: int, limit: int): Heap
    requires base + CHUNK_SIZE <= limit < base + WORD
  {
    SlotBelow32(limit - base - HEADER_SIZE);
    var len := limit - base - HEADER_SIZE;
    Heap(base, limit, [Block(base, len, false)],
         seq(NUM_SIZES, n => if n == Slot(len) then [base] else []),
         len - HEADER_SIZE, 0, 2 * CHUNK_SIZE + HEADER_SIZE)
  }

  ghost predicate GoodRange(base: int, limit: int) {
    && CHUNK_SIZE < base && base + CHUNK_SIZE <= limit && limit + CHUNK_SIZE < WORD
    && base % ALIGN == 0 && limit % ALIGN == 0
  }

  lemma FreshHolds(base: int, limit: int)
    requires GoodRange(base, limit)
    ensures Inv(Fresh(base, limit)) && Counted(Fresh(base, limit), 0)
  {
    var h := Fresh(base, limit);
    var b := h.blocks[0];
    SlotBelow32(b.size);
    assert GoodSize(b);
    forall n | 0 <= n < NUM_SIZES ensures NoDup(h.bins[n]) && Elements(h.bins[n]) == FreeAddrs(h.blocks, n) {
      assert h.blocks == [b];
      assert FreeAddrs([b], n) == if n == Slot(b.size) then {base} else {};
    }
    SumOne(MetaWeight, b);
    SumOne(UsedWeight, b);
    SumOne(FreeWeight, b);
  }

  ghost predicate FromSetup(base: int, limit: int, ops: seq<Op>, r: Heap) {
    GoodRange(base, limit) && (FreshHolds(base, limit); Run(Fresh(base, limit), ops, r))
  }

  // ----- theorems over runs ---------------------------------------------------------------------

  lemma {:induction false} RunKeepsInv(h: Heap, ops: seq<Op>, r: Heap)
    requires Inv(h) && Run(h, ops, r)
    ensures Inv(r) && r.base == h.base && r.limit == h.limit
    decreases |ops|
  {
    if ops != [] {
      RunKeepsInv(Apply(h, ops[0]), ops[1..], r);
    }
  }

  lemma {:induction false} RunKeepsCounters(h: Heap, ops: seq<Op>, r: Heap, unsplit: int)
    requires Inv(h) && Run(h, ops, r) && Counted(h, unsplit)
    ensures Counted(r, unsplit + UnsplitCount(h, ops, r))
    decreases |ops|
  {
    if ops != [] {
      match ops[0] {
        case MallocOp(request) => MallocKeepsCounters(h, request, unsplit);
        case FreeOp(ptr) => FreeKeepsCounters(h, ptr, unsplit);
      }
      var more := if ops[0].MallocOp? && Unsplit(h, ops[0].request) then 1 else 0;
      RunKeepsCounters(Apply(h, ops[0]), ops[1..], r, unsplit + more);
    }
  }

  /** From setup on, the blocks tile the heap, no two neighbours are free, every free list holds
      exactly the free blocks of its class, and the three counters obey their laws. */
  lemma EveryRun(base: int, limit: int, ops: seq<Op>, r: Heap)
    requires FromSetup(base, limit, ops, r)
    ensures Tiles(r.blocks, base, limit) && NoFreeNeighbours(r.blocks) && BinsAgree(r.blocks, r.bins)
    ensures Counted(r, UnsplitCount(Fresh(base, limit), ops, r))
  {
    FreshHolds(base, limit);
    RunKeepsInv(Fresh(base, limit), ops, r);
    RunKeepsCounters(Fresh(base, limit), ops, r, 0);
  }

  /** A live block stays where it is, with its size, until it is itself released. */
  lemma {:induction false} LiveUntilReleased(h: Heap, ops: seq<Op>, r: Heap, b: Block)
    requires Inv(h) && Run(h, ops, r)
    requires b in LiveBlocks(h.blocks) && FreeOp(b.Ptr()) !in ops
    ensures b in LiveBlocks(r.blocks)
    decreases |ops|
  {
    if ops != [] {
      match ops[0] {
        case MallocOp(request) =>
          SuccessMeansChosen(h, request);
          if Malloc(h, request).1 != 0 {
            MallocAddsOneLive(h, request);
          }
        case FreeOp(ptr) =>
          FreeReleases(h, ptr);
          assert ptr != b.Ptr();
      }
      LiveUntilReleased(Apply(h, ops[0]), ops[1..], r, b);
    }
  }

  lemma SomeElement(s: seq<int>)
    requires s != []
    ensures Elements(s) != {}
  {
    assert s[0] in Elements(s);
  }

  lemma FirstTwo(bs: seq<Block>)
    requires |bs| > 1 && NoFreeNeighbours(bs)
    ensures bs[0].used || bs[1].used
  {
  }

  lemma DistinctFirstTwo(s: seq<int>)
    requires |s| > 1 && NoDup(s)
    ensures s[0] != s[1]
  {
  }

  lemma OneFreeBlock(h: Heap)
    requires Inv(h) && LiveBlocks(h.blocks) == {}
    ensures h.blocks == [Block(h.base, h.limit - h.base - HEADER_SIZE, false)]
  {
    assert forall i :: 0 <= i < |h.blocks| && h.blocks[i].used ==> h.blocks[i] in LiveBlocks(h.blocks);
    if |h.blocks| > 1 {
      FirstTwo(h.blocks);
    }
  }

  lemma SingleList(s: seq<int>, a: int)
    requires NoDup(s) && Elements(s) == {a}
    ensures s == [a]
  {
    assert a in Elements(s);
    assert forall i :: 0 <= i < |s| ==> s[i] in Elements(s);
    if |s| > 1 {
      DistinctFirstTwo(s);
    }
  }

  /** A heap of one free block has the free lists of setup. */
  lemma LoneBlockLists(base: int, limit: int, r: Heap, n: nat)
    requires GoodRange(base, limit) && n < NUM_SIZES
    requires r.blocks == Fresh(base, limit).blocks && BinsAgree(r.blocks, r.bins)
    ensures r.bins[n] == Fresh(base, limit).bins[n]
  {
    var b := r.blocks[0];
    assert r.blocks == [b];
    assert Elements(r.bins[n]) == FreeAddrs([b], n) == if n == Slot(b.size) then {base} else {};
    if n == Slot(b.size) {
      SingleList(r.bins[n], base);
    } else if r.bins[n] != [] {
      SomeElement(r.bins[n]);
    }
  }

  /** Once every block is released, in whatever order, blocks and free lists are those of setup. */
  lemma AllReleased(base: int, limit: int, ops: seq<Op>, r: Heap)
    requires FromSetup(base, limit, ops, r)
    requires LiveBlocks(r.blocks) == {}
    ensures r.blocks == Fresh(base, limit).blocks && r.bins == Fresh(base, limit).bins
  {
    FreshHolds(base, limit);
    RunKeepsInv(Fresh(base, limit), ops, r);
    OneFreeBlock(r);
    hide Run, FreeAddrs, LiveBlocks;
    forall n | 0 <= n < NUM_SIZES ensures r.bins[n] == Fresh(base, limit).bins[n] {
      LoneBlockLists(base, limit, r, n);
    }
  }
}
