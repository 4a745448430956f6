/** kfree undoes kmalloc: the effect of every step of a release on blocks, lists and counters, and how
    it reverses the grant. */
module HeapRuns {
  import opened HeapSpec
  import opened HeapModel
  import opened HeapTheorems

  // ----- the exact effect of a release ----------------------------------------------------------

  lemma RemoveFreeEffect(h: Heap, i: nat)
    requires Well(h) && i < |h.blocks| && !h.blocks[i].used
    ensures GoodSize(h.blocks[i]) && 0 <= Slot(h.blocks[i].size) < |h.bins|
    ensures RemoveFree(h, i)
         == h.(blocks := Mark(h.blocks, i, true),
               bins := TakeBin(h.bins, Slot(h.blocks[i].size), h.blocks[i].addr),
               memFree := h.memFree - (h.blocks[i].size - HEADER_SIZE))
  {
    BlockInWell(h, i);
  }

  lemma PushFreeEffect(h: Heap, i: nat)
    requires Well(h) && i < |h.blocks| && h.blocks[i].used
    ensures GoodSize(h.blocks[i]) && 0 <= Slot(h.blocks[i].size) < |h.bins|
    ensures PushFree(h, i)
         == h.(blocks := Mark(h.blocks, i, false),
               bins := PutBin(h.bins, Slot(h.blocks[i].size), h.blocks[i].addr),
               memFree := h.memFree + (h.blocks[i].size - HEADER_SIZE))
  {
    BlockInWell(h, i);
  }

  lemma AbsorbEffect(h: Heap, i: nat)
    requires Well(h) && i + 1 < |h.blocks| && h.blocks[i].used && h.blocks[i + 1].used
    ensures Absorb(h, i)
         == h.(blocks := Merge(h.blocks, i),
               memMeta := h.memMeta - HEADER_SIZE,
               memFree := h.memFree + HEADER_SIZE)
    ensures Absorb(h, i).blocks[i].size == h.blocks[i].size + HEADER_SIZE + h.blocks[i + 1].size
  {
  }

  lemma FreeWithNextEffect(h: Heap, i: nat)
    requires Well(h) && i < |h.blocks| && h.blocks[i].used
    ensures MeltTo(h.blocks, i) == i ==> FreeWithNext(h, i) == h
    ensures MeltTo(h.blocks, i) == i + 1 ==>
      var n := h.blocks[i + 1];
      && GoodSize(n) && 0 <= Slot(n.size) < |h.bins|
      && FreeWithNext(h, i)
         == h.(blocks := WithNext(h.blocks, i),
               bins := TakeBin(h.bins, Slot(n.size), n.addr),
               memMeta := h.memMeta - HEADER_SIZE,
               memFree := h.memFree - (n.size - HEADER_SIZE) + HEADER_SIZE)
  {
    NextLayout(h, i);
    if MeltTo(h.blocks, i) == i + 1 {
      RemoveFreeEffect(h, i + 1);
    }
  }

  lemma FreeWithPrevEffect(h: Heap, i: nat)
    requires Well(h) && i < |h.blocks| && h.blocks[i].used
    ensures MeltFrom(h.blocks, i) == i ==>
      && GoodSize(h.blocks[i]) && 0 <= Slot(h.blocks[i].size) < |h.bins|
      && FreeWithPrev(h, i)
         == h.(blocks := WithPrev(h.blocks, i),
               bins := PutBin(h.bins, Slot(h.blocks[i].size), h.blocks[i].addr),
               memFree := h.memFree + (h.blocks[i].size - HEADER_SIZE))
  {
    PrevLayout(h, i);
    if MeltFrom(h.blocks, i) == i {
      PushFreeEffect(h, i);
    }
  }

  lemma MeltPrevEffect(h: Heap, i: nat)
    requires Well(h) && i < |h.blocks| && h.blocks[i].used && MeltFrom(h.blocks, i) == i - 1
    ensures var r := FreeWithPrev(h, i); var p := h.blocks[i - 1];
      && r.memUsed == h.memUsed
      && r.memMeta == h.memMeta - HEADER_SIZE
      && r.memFree == h.memFree - (p.size - HEADER_SIZE) + HEADER_SIZE
                           + (p.size + h.blocks[i].size)
  {
    RemoveFreeEffect(h, i - 1);
    var d := RemoveFree(h, i - 1);
    AbsorbEffect(d, i - 1);
    PushFreeEffect(Absorb(d, i - 1), i - 1);
  }

  // ----- kfree undoes kmalloc -------------------------------------------------------------------

  lemma WithoutHead(s: seq<int>)
    requires s != []
    ensures Without(s, s[0]) == s[1..]
  {
    assert Position(s, s[0]) == 0;
    assert s[..0] + s[1..] == s[1..];
  }

  lemma TakePut(bins: seq<seq<int>>, n: nat, a: int)
    requires n < |bins|
    ensures TakeBin(PutBin(bins, n, a), n, a) == bins
  {
    WithoutHead([a] + bins[n]);
  }

  lemma PutTake(bins: seq<seq<int>>, n: nat, a: int)
    requires n < |bins| && bins[n] != [] && bins[n][0] == a
    ensures PutBin(TakeBin(bins, n, a), n, a) == bins
  {
    WithoutHead(bins[n]);
    assert [a] + bins[n][1..] == bins[n];
  }

  lemma MallocBins(h: Heap, request: nat)
    requires Well(h) && request < WORD && Malloc(h, request).1 != 0
    ensures FirstBin(h.bins, StartClass(request)) < NUM_SIZES
    ensures var m := FirstBin(h.bins, StartClass(request));
      var c := h.blocks[ChosenIndex(h, request)];
      var size := RoundedSize(request);
      var taken := TakeBin(h.bins, m, c.addr);
      && (size + CHUNK_SIZE > c.size ==> Malloc(h, request).0.bins == taken)
      && (size + CHUNK_SIZE <= c.size ==>
            var rest := c.size - size - HEADER_SIZE;
            0 <= Slot(rest) < |taken| && Malloc(h, request).0.bins == PutBin(taken, Slot(rest), c.Ptr() + size))
  {
    hide Well, ClassFor, TakeBin, PutBin, FirstBin;
    SuccessMeansChosen(h, request);
    RoundedSizeBounds(request);
    var i := ChosenIndex(h, request);
    var size := RoundedSize(request);
    if size + CHUNK_SIZE <= h.blocks[i].size {
      SplitBins(Detach(h, i), i, size);
    }
  }

  lemma SplitBins(h: Heap, i: nat, size: int)
    requires Well(h) && i < |h.blocks| && h.blocks[i].used
    requires size >= MIN_SIZE && size % ALIGN == 0 && size + CHUNK_SIZE <= h.blocks[i].size
    ensures var rest := h.blocks[i].size - size - HEADER_SIZE;
      && 0 <= Slot(rest) < |h.bins|
      && Carve(h, i, size).blocks[i + 1] == Block(h.blocks[i].Ptr() + size, rest, true)
      && Attach(Carve(h, i, size), i + 1).bins == PutBin(h.bins, Slot(rest), h.blocks[i].Ptr() + size)
  {
    hide Tiles, PutBin, FreeAddrs, Slot;
    BlockInWell(Carve(h, i, size), i + 1);
  }

  /** kfree right after a successful kmalloc brings back every block and every free list, in order. */
  lemma FreeUndoesMalloc(h: Heap, request: nat)
    requires Inv(h) && request < WORD && Malloc(h, request).1 != 0
    ensures var (r, ptr) := Malloc(h, request);
      && Live(r, ptr)
      && Free(r, ptr).blocks == h.blocks
      && Free(r, ptr).bins == h.bins
  {
    GrantedBlock(h, request);
    MallocLayout(h, request);
    MallocBins(h, request);
    var (r, ptr) := Malloc(h, request);
    var i := ChosenIndex(h, request);
    MallocKeepsInv(h, request);
    assert r.blocks[i].addr == h.blocks[i].addr;
    BlockInWell(r, i);
    FreeLayout(r, ptr);
    ReleaseGranted(h.blocks, i, request);
    UndoBins(h, request, r, i);
  }

  lemma UndoBins(h: Heap, request: nat, r: Heap, i: nat)
    requires Inv(h) && request < WORD && Malloc(h, request).1 != 0 && r == Malloc(h, request).0
    requires FirstBin(h.bins, StartClass(request)) < NUM_SIZES && i == ChosenIndex(h, request)
    requires Live(r, h.blocks[i].Ptr()) && IndexOf(r.blocks, h.blocks[i].addr) == i
    requires r.blocks == Granted(h.blocks, i, request) && |h.bins| == NUM_SIZES
    ensures Free(r, h.blocks[i].Ptr()).bins == h.bins
  {
    hide FreeWithNext, FreeWithPrev, Malloc, WithNext, Granted, Tiles, BinsAgree, NoFreeNeighbours;
    hide FirstBin, MeltFrom, MeltTo, PutBin, ClassFor;
    var r0 := r.(memUsed := r.memUsed - r.blocks[i].size);
    var n := FirstBin(h.bins, StartClass(request));
    UndoLayout(h.blocks, i, request);
    MallocBins(h, request);
    UndoNextBins(h.blocks, request, r0, i, TakeBin(h.bins, n, h.blocks[i].addr));
    NextLayout(r0, i);
    UndoPrevBins(FreeWithNext(r0, i), h.bins, n, i);
  }

  lemma UndoPrevBins(m: Heap, bins: seq<seq<int>>, n: nat, i: nat)
    requires Well(m) && i < |m.blocks| && m.blocks[i].used && MeltFrom(m.blocks, i) == i
    requires m.blocks[i].size > 0 && Slot(m.blocks[i].size) == n < |bins| == NUM_SIZES
    requires bins[n] != [] && bins[n][0] == m.blocks[i].addr
    requires m.bins == TakeBin(bins, n, m.blocks[i].addr)
    ensures FreeWithPrev(m, i).bins == bins
  {
    FreeWithPrevEffect(m, i);
    PutTake(bins, n, m.blocks[i].addr);
  }

  lemma UndoNextBins(bs: seq<Block>, request: nat, r: Heap, i: nat, taken: seq<seq<int>>)
    requires NoFreeNeighbours(bs) && i < |bs| && !bs[i].used
    requires Well(r) && r.blocks == Granted(bs, i, request) && |taken| == NUM_SIZES
    requires RoundedSize(request) + CHUNK_SIZE > bs[i].size ==> r.bins == taken
    requires RoundedSize(request) + CHUNK_SIZE <= bs[i].size ==>
      var rest := Remainder(bs[i], RoundedSize(request))[0];
      rest.size > 0 && 0 <= Slot(rest.size) < NUM_SIZES && r.bins == PutBin(taken, Slot(rest.size), rest.addr)
    ensures i < |r.blocks| && r.blocks[i].used && FreeWithNext(r, i).bins == taken
  {
    UndoLayout(bs, i, request);
    assert r.blocks[i] == Block(bs[i].addr, GrantedSize(request, bs[i].size), true);
    if RoundedSize(request) + CHUNK_SIZE <= bs[i].size {
      BlockInWell(r, i + 1);
      UndoSplit(r, taken, i);
    }
  }

  lemma UndoSplit(r: Heap, taken: seq<seq<int>>, i: nat)
    requires Well(r) && i + 1 < |r.blocks| && r.blocks[i].used && !r.blocks[i + 1].used
    requires |taken| == NUM_SIZES && GoodSize(r.blocks[i + 1]) && 0 <= Slot(r.blocks[i + 1].size) < NUM_SIZES
    requires r.bins == PutBin(taken, Slot(r.blocks[i + 1].size), r.blocks[i + 1].addr)
    ensures FreeWithNext(r, i).bins == taken
  {
    FreeWithNextEffect(r, i);
    TakePut(taken, Slot(r.blocks[i + 1].size), r.blocks[i + 1].addr);
  }

  lemma UndoLayout(bs: seq<Block>, i: nat, request: nat)
    requires NoFreeNeighbours(bs) && i < |bs| && !bs[i].used
    ensures var t := Granted(bs, i, request); var rest := Remainder(bs[i], RoundedSize(request));
      && i < |t| && MeltFrom(t, i) == i
      && MeltTo(t, i) == i + |rest|
      && (|rest| == 1 ==> t[i + 1] == rest[0])
      && i < |WithNext(t, i)| && WithNext(t, i)[i] == bs[i].(used := true)
      && MeltFrom(WithNext(t, i), i) == i
  {
    var t := Granted(bs, i, request);
    var extra := |Remainder(bs[i], RoundedSize(request))|;
    assert t[i] == Block(bs[i].addr, GrantedSize(request, bs[i].size), true);
    if i > 0 { assert t[i - 1] == bs[i - 1] && bs[i - 1].used; }
    if extra == 0 && i + 1 < |t| { assert t[i + 1] == bs[i + 1] && bs[i + 1].used; }
    if extra == 1 { assert t[i + 1] == Remainder(bs[i], RoundedSize(request))[0]; }
  }

  lemma ReleaseGranted(bs: seq<Block>, i: nat, request: nat)
    requires NoFreeNeighbours(bs) && i < |bs| && !bs[i].used
    ensures i < |Granted(bs, i, request)| && Released(Granted(bs, i, request), i) == bs
  {
    var t := Granted(bs, i, request);
    var extra := |Remainder(bs[i], RoundedSize(request))|;
    UndoLayout(bs, i, request);
    assert t[..i] == bs[..i];
    assert t[i + extra + 1..] == bs[i + 1..];
    assert Melted(t, i) == bs[i];
  }
}
