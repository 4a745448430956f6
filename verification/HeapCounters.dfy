/** The laws of the three heap counters. */
module HeapCounters {
  import opened HeapSpec
  import opened HeapModel
  import opened HeapTheorems
  import opened HeapRuns

  // What one block contributes to each counter.

  function MetaWeight(b: Block): int {
    HEADER_SIZE
  }

  function UsedWeight(b: Block): int {
    if b.used then b.size else 0
  }

  function FreeWeight(b: Block): int {
    if b.used then -HEADER_SIZE else b.size - 2 * HEADER_SIZE
  }

  function Sum(w: Block -> int, bs: seq<Block>): int {
    if bs == [] then 0 else w(bs[0]) + Sum(w, bs[1..])
  }

  lemma {:induction false} SumConcat(w: Block -> int, x: seq<Block>, y: seq<Block>)
    ensures Sum(w, x + y) == Sum(w, x) + Sum(w, y)
  {
    if x == [] {
      assert x + y == y;
    } else {
      assert (x + y)[0] == x[0];
      assert (x + y)[1..] == x[1..] + y;
      SumConcat(w, x[1..], y);
    }
  }

  lemma SumOne(w: Block -> int, b: Block)
    ensures Sum(w, [b]) == w(b)
  {
    assert [b][1..] == [];
  }

  lemma SumParts(w: Block -> int, x: seq<Block>, b: Block, y: seq<Block>)
    ensures Sum(w, x + [b] + y) == Sum(w, x) + w(b) + Sum(w, y)
  {
    SumConcat(w, x + [b], y);
    SumConcat(w, x, [b]);
    SumOne(w, b);
  }

  lemma SumAt(w: Block -> int, bs: seq<Block>, i: nat)
    requires i < |bs|
    ensures Sum(w, bs) == Sum(w, bs[..i]) + w(bs[i]) + Sum(w, bs[i + 1..])
  {
    assert bs == bs[..i] + [bs[i]] + bs[i + 1..];
    SumParts(w, bs[..i], bs[i], bs[i + 1..]);
  }

  /** The counters of a heap in which kmalloc handed out a whole block unsplit times: the headers
      of all blocks and the two sentinels, the used bytes, and the free bytes less what the code
      leaves out of them. */
  ghost predicate Counted(h: Heap, unsplit: int) {
    && h.memMeta == 2 * CHUNK_SIZE + Sum(MetaWeight, h.blocks)
    && h.memUsed == Sum(UsedWeight, h.blocks) - HEADER_SIZE * unsplit
    && h.memFree == Sum(FreeWeight, h.blocks) - HEADER_SIZE * unsplit + HEADER_SIZE
  }

  // ----- allocation -----------------------------------------------------------------------------

  /** Whether a request is served with a whole block. */
  predicate Unsplit(h: Heap, request: nat)
    requires Well(h)
  {
    FirstBin(h.bins, StartClass(request)) < NUM_SIZES
    && RoundedSize(request) + CHUNK_SIZE > h.blocks[ChosenIndex(h, request)].size
  }

  lemma MallocCounters(h: Heap, request: nat)
    requires Well(h) && request < WORD
    requires FirstBin(h.bins, StartClass(request)) < NUM_SIZES
    ensures var r := Malloc(h, request).0; var size2 := h.blocks[ChosenIndex(h, request)].size;
      && (Unsplit(h, request) ==>
            r.memMeta == h.memMeta && r.memFree == h.memFree - size2
            && r.memUsed == h.memUsed + size2 - HEADER_SIZE)
      && (!Unsplit(h, request) ==>
            && r.memMeta == h.memMeta + HEADER_SIZE
            && r.memFree == h.memFree - RoundedSize(request) - 2 * HEADER_SIZE
            && r.memUsed == h.memUsed + RoundedSize(request))
  {
    RoundedSizeBounds(request);
  }

  lemma GrantedSum(w: Block -> int, bs: seq<Block>, i: nat, request: nat)
    requires i < |bs|
    ensures Sum(w, Granted(bs, i, request))
         == Sum(w, bs) - w(bs[i]) + w(Block(bs[i].addr, GrantedSize(request, bs[i].size), true))
            + Sum(w, Remainder(bs[i], RoundedSize(request)))
  {
    var g, rest := Block(bs[i].addr, GrantedSize(request, bs[i].size), true), Remainder(bs[i], RoundedSize(request));
    SumAt(w, bs, i);
    SumConcat(w, bs[..i] + [g] + rest, bs[i + 1..]);
    SumParts(w, bs[..i], g, rest);
  }

  lemma RemainderSum(w: Block -> int, b: Block, size: int)
    ensures Sum(w, Remainder(b, size))
         == if size + CHUNK_SIZE <= b.size then w(Block(b.Ptr() + size, b.size - size - HEADER_SIZE, false)) else 0
  {
    if size + CHUNK_SIZE <= b.size {
      SumOne(w, Block(b.Ptr() + size, b.size - size - HEADER_SIZE, false));
    }
  }

  lemma MallocKeepsCounters(h: Heap, request: nat, unsplit: int)
    requires Well(h) && request < WORD && Counted(h, unsplit)
    ensures Counted(Malloc(h, request).0, unsplit + if Unsplit(h, request) then 1 else 0)
  {
    hide Malloc, Granted, Remainder;
    SuccessMeansChosen(h, request);
    if FirstBin(h.bins, StartClass(request)) < NUM_SIZES {
      var i := ChosenIndex(h, request);
      MallocLayout(h, request);
      MallocCounters(h, request);
      GrantedSum(MetaWeight, h.blocks, i, request);
      GrantedSum(UsedWeight, h.blocks, i, request);
      GrantedSum(FreeWeight, h.blocks, i, request);
      RemainderSum(MetaWeight, h.blocks[i], RoundedSize(request));
      RemainderSum(UsedWeight, h.blocks[i], RoundedSize(request));
      RemainderSum(FreeWeight, h.blocks[i], RoundedSize(request));
    }
  }

  // ----- release --------------------------------------------------------------------------------

  lemma NextSum(w: Block -> int, bs: seq<Block>, i: nat)
    requires i + 1 < |bs| && MeltTo(bs, i) == i + 1
    ensures Sum(w, WithNext(bs, i)) == Sum(w, bs) - w(bs[i]) - w(bs[i + 1]) + w(WithNext(bs, i)[i])
  {
    SumParts(w, bs[..i], WithNext(bs, i)[i], bs[i + 2..]);
    SumAt(w, bs, i);
    SumAt(w, bs[i + 1..], 0);
    assert bs[i + 1..][1..] == bs[i + 2..] && bs[i + 1..][..0] == [];
  }

  /** Counters halfway through kfree: mem_used no longer counts the block being released. */
  ghost predicate Owing(h: Heap, unsplit: int, size: int) {
    Counted(h.(memUsed := h.memUsed + size), unsplit)
  }

  lemma NextKeepsCounters(h: Heap, i: nat, unsplit: int)
    requires Well(h) && i < |h.blocks| && h.blocks[i].used
    requires Owing(h, unsplit, h.blocks[i].size)
    ensures i < |FreeWithNext(h, i).blocks|
    ensures Owing(FreeWithNext(h, i), unsplit, FreeWithNext(h, i).blocks[i].size)
  {
    FreeWithNextEffect(h, i);
    if MeltTo(h.blocks, i) == i + 1 {
      hide FreeWithNext;
      assert h.blocks[i].End() == h.blocks[i + 1].addr;
      NextSum(MetaWeight, h.blocks, i);
      NextSum(UsedWeight, h.blocks, i);
      NextSum(FreeWeight, h.blocks, i);
    }
  }

  lemma PrevSum(w: Block -> int, bs: seq<Block>, i: nat, m: Block)
    requires i < |bs| && m == Block(bs[MeltFrom(bs, i)].addr, bs[i].End() - bs[MeltFrom(bs, i)].Ptr(), false)
    ensures MeltFrom(bs, i) == i ==> Sum(w, WithPrev(bs, i)) == Sum(w, bs) - w(bs[i]) + w(m)
    ensures MeltFrom(bs, i) == i - 1 ==>
      Sum(w, WithPrev(bs, i)) == Sum(w, bs) - w(bs[i]) - w(bs[i - 1]) + w(m)
  {
    hide Sum;
    var from := MeltFrom(bs, i);
    SumAt(w, bs, i);
    SumParts(w, bs[..from], m, bs[i + 1..]);
    if from == i - 1 {
      SumSnoc(w, bs, i);
    }
  }

  lemma SumSnoc(w: Block -> int, bs: seq<Block>, i: nat)
    requires 0 < i <= |bs|
    ensures Sum(w, bs[..i]) == Sum(w, bs[..i - 1]) + w(bs[i - 1])
  {
    assert bs[..i] == bs[..i - 1] + [bs[i - 1]];
    SumConcat(w, bs[..i - 1], [bs[i - 1]]);
    SumOne(w, bs[i - 1]);
  }

  lemma PrevKeepsCounters(h: Heap, i: nat, unsplit: int)
    requires Well(h) && i < |h.blocks| && h.blocks[i].used
    requires Owing(h, unsplit, h.blocks[i].size)
    ensures Counted(FreeWithPrev(h, i), unsplit)
  {
    PrevLayout(h, i);
    var from := MeltFrom(h.blocks, i);
    var m := Block(h.blocks[from].addr, h.blocks[i].End() - h.blocks[from].Ptr(), false);
    PrevSum(MetaWeight, h.blocks, i, m);
    PrevSum(UsedWeight, h.blocks, i, m);
    PrevSum(FreeWeight, h.blocks, i, m);
    if MeltFrom(h.blocks, i) == i {
      FreeWithPrevEffect(h, i);
    } else {
      MeltPrevEffect(h, i);
      assert h.blocks[i - 1].End() == h.blocks[i].addr;
    }
  }

  lemma FreeKeepsCounters(h: Heap, ptr: int, unsplit: int)
    requires Well(h) && Live(h, ptr) && Counted(h, unsplit)
    ensures Counted(Free(h, ptr), unsplit)
  {
    hide Tiles, BinsAgree, FreeWithNext, FreeWithPrev;
    var i := IndexOf(h.blocks, ptr - HEADER_SIZE);
    var h0 := h.(memUsed := h.memUsed - h.blocks[i].size);
    NextKeepsCounters(h0, i, unsplit);
    PrevKeepsCounters(FreeWithNext(h0, i), i, unsplit);
  }
}
