/** How an abstract heap lies in the words of kernel memory. */
module HeapLayout {
  import opened LinkMemory
  import opened HeapSpec
  import opened HeapModel
  import opened HeapTheorems

  function Addrs(bs: seq<Block>): seq<int> {
    seq(|bs|, i requires 0 <= i < |bs| => bs[i].addr)
  }

  /** The ring through the `all` links: first sentinel, the blocks in address order, last sentinel. */
  function AllNodes(h: Heap): seq<int> {
    [h.base - CHUNK_SIZE] + Addrs(h.blocks) + [h.limit]
  }

  /** The `free` links of a chunk lie right behind its header. */
  function FreeNodes(bin: seq<int>): seq<int> {
    seq(|bin|, i requires 0 <= i < |bin| => bin[i] + HEADER_SIZE)
  }

  function HeadOf(bin: seq<int>): int {
    if bin == [] then NULL else bin[0]
  }

  const USED_OFFSET := 8

  ghost predicate BinLinked(m: Memory, head: int, bin: seq<int>) {
    head == HeadOf(bin) && (bin != [] ==> Ring(m, FreeNodes(bin)))
  }

  ghost predicate Links(m: Memory, heads: seq<int>, h: Heap) {
    && Ring(m, AllNodes(h))
    && |heads| == |h.bins| == NUM_SIZES
    && forall n :: 0 <= n < NUM_SIZES ==> BinLinked(m, heads[n], h.bins[n])
  }

  /** The used bytes say which blocks are used; both sentinels are. */
  ghost predicate UsedWords(m: Memory, h: Heap) {
    && Load(m, h.base - CHUNK_SIZE + USED_OFFSET) == 1
    && Load(m, h.limit + USED_OFFSET) == 1
    && forall i :: 0 <= i < |h.blocks| ==>
         Load(m, h.blocks[i].addr + USED_OFFSET) == if h.blocks[i].used then 1 else 0
  }

  /** The layout does not depend on the counters. */
  lemma SameLayout(m: Memory, heads: seq<int>, h: Heap, r: Heap)
    requires r == h.(memFree := r.memFree, memUsed := r.memUsed, memMeta := r.memMeta)
    ensures Links(m, heads, r) <==> Links(m, heads, h)
    ensures Well(r) <==> Well(h)
    ensures UsedWords(m, r) <==> UsedWords(m, h)
    ensures forall a :: IsChunk(r, a) <==> IsChunk(h, a)
  {
    assert AllNodes(r) == AllNodes(h);
  }

  // ----- chunk addresses ------------------------------------------------------------------------

  ghost predicate IsChunk(h: Heap, a: int) {
    exists i :: 0 <= i < |AllNodes(h)| && AllNodes(h)[i] == a
  }

  lemma ChunkCases(h: Heap, a: int)
    ensures IsChunk(h, a) <==> a == h.base - CHUNK_SIZE || a == h.limit
                               || exists i :: 0 <= i < |h.blocks| && h.blocks[i].addr == a
  {
    var s := AllNodes(h);
    assert s[0] == h.base - CHUNK_SIZE;
    assert s[|s| - 1] == h.limit;
    assert forall i :: 0 <= i < |h.blocks| ==> s[i + 1] == h.blocks[i].addr;
    if i :| 0 <= i < |s| && s[i] == a {
      if 0 < i < |s| - 1 {
        assert h.blocks[i - 1].addr == a;
      }
    }
    if i :| 0 <= i < |h.blocks| && h.blocks[i].addr == a {
      assert s[i + 1] == a;
    }
  }

  lemma NodesAscend(h: Heap, i: nat, j: nat)
    requires Well(h) && i < j < |AllNodes(h)|
    ensures AllNodes(h)[i] + CHUNK_SIZE <= AllNodes(h)[j]
  {
    var s := AllNodes(h);
    BlockInWell(h, 0);
    if i > 0 { BlockInWell(h, i - 1); assert s[i] == h.blocks[i - 1].addr; }
    if j < |s| - 1 { BlockInWell(h, j - 1); assert s[j] == h.blocks[j - 1].addr; }
    if i > 0 && j < |s| - 1 { Ordered(h.blocks, h.base, h.limit, i - 1, j - 1); }
  }

  /** Two different chunks are at least a whole chunk record apart. */
  lemma ChunksApart(h: Heap, a: int, b: int)
    requires Well(h) && IsChunk(h, a) && IsChunk(h, b) && a != b
    ensures a + CHUNK_SIZE <= b || b + CHUNK_SIZE <= a
  {
    var i :| 0 <= i < |AllNodes(h)| && AllNodes(h)[i] == a;
    var j :| 0 <= j < |AllNodes(h)| && AllNodes(h)[j] == b;
    if i < j { NodesAscend(h, i, j); } else { NodesAscend(h, j, i); }
  }

  lemma BinIsChunk(h: Heap, n: nat, a: int)
    requires Well(h) && n < NUM_SIZES && a in h.bins[n]
    ensures IsChunk(h, a) && a != NULL
    ensures IndexOf(h.blocks, a) < |h.blocks| && ClassOf(h, IndexOf(h.blocks, a)) == n
  {
    FreeBlockOf(h, n, a);
    BlockInWell(h, IndexOf(h.blocks, a));
    ChunkCases(h, a);
  }

  /** The class of block i. */
  function ClassOf(h: Heap, i: nat): int
    requires i < |h.blocks|
  {
    if h.blocks[i].size <= 0 then -1 else Slot(h.blocks[i].size)
  }

  // ----- frames ---------------------------------------------------------------------------------

  /** s lists distinct chunks. */
  ghost predicate Chunks(h: Heap, s: seq<int>) {
    NoDup(s) && forall i :: 0 <= i < |s| ==> IsChunk(h, s[i])
  }

  lemma BinChunks(h: Heap, n: nat)
    requires Well(h) && n < NUM_SIZES
    ensures Chunks(h, h.bins[n])
  {
    forall i | 0 <= i < |h.bins[n]| ensures IsChunk(h, h.bins[n][i]) {
      BinIsChunk(h, n, h.bins[n][i]);
    }
  }

  lemma FreeApartAll(h: Heap, s: seq<int>)
    requires Well(h) && Chunks(h, s)
    ensures Apart(FreeNodes(s), AllNodes(h)) && Apart(AllNodes(h), FreeNodes(s))
  {
    var t := AllNodes(h);
    forall i, j | 0 <= i < |s| && 0 <= j < |t|
      ensures FreeNodes(s)[i] + 8 <= t[j] || t[j] + 8 <= FreeNodes(s)[i]
    {
      assert IsChunk(h, t[j]);
      if s[i] != t[j] { ChunksApart(h, s[i], t[j]); }
    }
  }

  lemma FreeApartFree(h: Heap, s: seq<int>, t: seq<int>)
    requires Well(h) && Chunks(h, s) && Chunks(h, t)
    requires forall a :: a in s ==> a !in t
    ensures Apart(FreeNodes(s), FreeNodes(t))
  {
    forall i, j | 0 <= i < |s| && 0 <= j < |t|
      ensures FreeNodes(s)[i] + 8 <= FreeNodes(t)[j] || FreeNodes(t)[j] + 8 <= FreeNodes(s)[i]
    {
      assert s[i] in s && t[j] in t;
      ChunksApart(h, s[i], t[j]);
    }
  }

  lemma BinsApart(h: Heap, n: nat, k: nat)
    requires Well(h) && n < NUM_SIZES && k < NUM_SIZES && n != k
    ensures forall a :: a in h.bins[n] ==> a !in h.bins[k]
  {
    forall a | a in h.bins[n] ensures a !in h.bins[k] {
      BinIsChunk(h, n, a);
      if a in h.bins[k] { BinIsChunk(h, k, a); }
    }
  }

  ghost predicate SameUsed(h: Heap, m: Memory, m': Memory) {
    forall a :: IsChunk(h, a) ==> Load(m', a + USED_OFFSET) == Load(m, a + USED_OFFSET)
  }

  lemma SameUsedChain(h: Heap, r: Heap, m0: Memory, m1: Memory, m2: Memory)
    requires SameUsed(h, m0, m1) && SameUsed(r, m1, m2) && forall a :: IsChunk(h, a) ==> IsChunk(r, a)
    ensures SameUsed(h, m0, m2)
  {
  }

  lemma SameUsedSelf(h: Heap, m: Memory)
    ensures SameUsed(h, m, m)
  {
  }

  lemma SameUsedAt(h: Heap, m: Memory, m': Memory, a: int)
    requires SameUsed(h, m, m') && IsChunk(h, a)
    ensures Load(m', a + USED_OFFSET) == Load(m, a + USED_OFFSET)
  {
  }

  lemma FreeCellsKeepUsed(h: Heap, m: Memory, m': Memory, s: seq<int>)
    requires Well(h) && Chunks(h, s) && OnlyCells(m, m', FreeNodes(s))
    ensures SameUsed(h, m, m')
  {
    forall a | IsChunk(h, a) ensures Load(m', a + USED_OFFSET) == Load(m, a + USED_OFFSET) {
      forall i | 0 <= i < |s|
        ensures FreeNodes(s)[i] != a + USED_OFFSET && FreeNodes(s)[i] != a + USED_OFFSET - 4
      {
        if s[i] != a { ChunksApart(h, s[i], a); }
      }
      assert !IsCell(FreeNodes(s), a + USED_OFFSET);
    }
  }

  lemma AllCellsKeepUsed(h: Heap, m: Memory, m': Memory)
    requires Well(h) && OnlyCells(m, m', AllNodes(h))
    ensures SameUsed(h, m, m')
  {
    var t := AllNodes(h);
    forall a | IsChunk(h, a) ensures Load(m', a + USED_OFFSET) == Load(m, a + USED_OFFSET) {
      forall i | 0 <= i < |t| ensures t[i] != a + USED_OFFSET && t[i] != a + USED_OFFSET - 4 {
        assert IsChunk(h, t[i]);
        if t[i] != a { ChunksApart(h, t[i], a); }
      }
      assert !IsCell(t, a + USED_OFFSET);
    }
  }

  lemma FreeCellsKeepAll(h: Heap, m: Memory, m': Memory, s: seq<int>)
    requires Well(h) && Ring(m, AllNodes(h)) && Chunks(h, s) && OnlyCells(m, m', FreeNodes(s))
    ensures Ring(m', AllNodes(h))
  {
    FreeApartAll(h, s);
    RingApart(m, m', AllNodes(h), FreeNodes(s));
  }

  /** Relinking the free nodes of some chunks leaves every class without any of these chunks alone. */
  lemma FreeCellsFrame(h: Heap, m: Memory, m': Memory, heads: seq<int>, s: seq<int>, n: nat)
    requires Well(h) && Links(m, heads, h) && Chunks(h, s) && OnlyCells(m, m', FreeNodes(s))
    requires n < NUM_SIZES && forall a :: a in h.bins[n] ==> a !in s
    ensures BinLinked(m', heads[n], h.bins[n])
  {
    assert BinLinked(m, heads[n], h.bins[n]);
    if h.bins[n] != [] {
      BinChunks(h, n);
      FreeApartFree(h, h.bins[n], s);
      RingApart(m, m', FreeNodes(h.bins[n]), FreeNodes(s));
    }
  }

  /** Relinking the address ring leaves every free list alone. */
  lemma AllCellsFrame(h: Heap, m: Memory, m': Memory, heads: seq<int>)
    requires Well(h) && |heads| == NUM_SIZES && OnlyCells(m, m', AllNodes(h))
    requires forall n :: 0 <= n < NUM_SIZES ==> BinLinked(m, heads[n], h.bins[n])
    ensures forall n :: 0 <= n < NUM_SIZES ==> BinLinked(m', heads[n], h.bins[n])
  {
    forall n | 0 <= n < NUM_SIZES ensures BinLinked(m', heads[n], h.bins[n]) {
      assert BinLinked(m, heads[n], h.bins[n]);
      if h.bins[n] != [] {
        BinChunks(h, n);
        FreeApartAll(h, h.bins[n]);
        RingApart(m, m', FreeNodes(h.bins[n]), AllNodes(h));
      }
    }
  }

  // ----- the four changes in memory ---------------------------------------------------------------

  lemma PositionIs(s: seq<int>, k: nat)
    requires NoDup(s) && k < |s|
    ensures Position(s, s[k]) == k && Without(s, s[k]) == RemoveAt(s, k)
  {
    assert s[k] in s;
    var j := Position(s, s[k]);
    assert s[j] == s[k];
  }

  /** The place of free block i in the list of its class n. */
  function ListedAt(h: Heap, i: nat, n: nat): (k: nat)
    requires Well(h) && i < |h.blocks| && !h.blocks[i].used && ClassOf(h, i) == n < NUM_SIZES
    ensures k < |h.bins[n]| && h.bins[n][k] == h.blocks[i].addr
  {
    TakeAgrees(h.blocks, h.bins, h.base, h.limit, i);
    Position(h.bins[n], h.blocks[i].addr)
  }

  lemma MarkNodes(h: Heap, r: Heap, i: nat, used: bool)
    requires i < |h.blocks| && r.blocks == Mark(h.blocks, i, used) && r.base == h.base && r.limit == h.limit
    ensures AllNodes(r) == AllNodes(h) && forall a :: IsChunk(r, a) <==> IsChunk(h, a)
  {
    assert Addrs(r.blocks) == Addrs(h.blocks);
  }

  lemma DetachLinks(h: Heap, i: nat, m: Memory, m': Memory, heads: seq<int>, k: nat, head: int)
    requires Well(h) && Links(m, heads, h) && i < |h.blocks| && !h.blocks[i].used
    requires 0 <= ClassOf(h, i) < NUM_SIZES && k < |h.bins[ClassOf(h, i)]|
    requires h.bins[ClassOf(h, i)][k] == h.blocks[i].addr
    requires BinLinked(m', head, RemoveAt(h.bins[ClassOf(h, i)], k))
    requires OnlyCells(m, m', FreeNodes(h.bins[ClassOf(h, i)]))
    ensures Links(m', heads[ClassOf(h, i) := head], Detach(h, i)) && SameUsed(h, m, m')
  {
    var n := ClassOf(h, i);
    var bin, r := h.bins[n], Detach(h, i);
    BlockInWell(h, i);
    BinChunks(h, n);
    PositionIs(bin, k);
    MarkNodes(h, r, i, true);
    FreeCellsKeepAll(h, m, m', bin);
    FreeCellsKeepUsed(h, m, m', bin);
    forall j | 0 <= j < NUM_SIZES ensures BinLinked(m', heads[n := head][j], r.bins[j]) {
      if j != n {
        BinsApart(h, j, n);
        FreeCellsFrame(h, m, m', heads, bin, j);
      }
    }
  }

  lemma UsedNotListed(h: Heap, i: nat, n: nat)
    requires Well(h) && i < |h.blocks| && h.blocks[i].used && n < NUM_SIZES
    ensures h.blocks[i].addr !in h.bins[n]
  {
    if h.blocks[i].addr in h.bins[n] {
      FreeBlockOf(h, n, h.blocks[i].addr);
      BlockInWell(h, i);
    }
  }

  /** The nodes that a push of block i onto its class relinks. */
  lemma PushedChunks(h: Heap, i: nat)
    requires Well(h) && i < |h.blocks| && h.blocks[i].used
    requires 0 <= ClassOf(h, i) < NUM_SIZES
    ensures Chunks(h, [h.blocks[i].addr] + h.bins[ClassOf(h, i)])
    ensures Apart(FreeNodes(h.bins[ClassOf(h, i)]), [h.blocks[i].addr + HEADER_SIZE])
    ensures forall k :: 0 <= k < |h.bins[ClassOf(h, i)]| ==> h.bins[ClassOf(h, i)][k] > 0
  {
    var n, a := ClassOf(h, i), h.blocks[i].addr;
    BinChunks(h, n);
    UsedNotListed(h, i, n);
    ChunkCases(h, a);
    assert Chunks(h, [a]);
    FreeApartFree(h, h.bins[n], [a]);
    assert FreeNodes([a]) == [a + HEADER_SIZE];
    BinPositive(h, n);
  }

  lemma BinPositive(h: Heap, n: nat)
    requires Well(h) && n < NUM_SIZES
    ensures forall k :: 0 <= k < |h.bins[n]| ==> h.bins[n][k] > 0
  {
    forall k | 0 <= k < |h.bins[n]| ensures h.bins[n][k] > 0 {
      assert h.bins[n][k] in h.bins[n];
      FreeBlockOf(h, n, h.bins[n][k]);
      BlockInWell(h, IndexOf(h.blocks, h.bins[n][k]));
    }
  }

  lemma AttachLinks(h: Heap, i: nat, m: Memory, m': Memory, heads: seq<int>)
    requires Well(h) && Links(m, heads, h) && i < |h.blocks| && h.blocks[i].used
    requires 0 <= ClassOf(h, i) < NUM_SIZES
    requires BinLinked(m', h.blocks[i].addr, [h.blocks[i].addr] + h.bins[ClassOf(h, i)])
    requires OnlyCells(m, m', FreeNodes([h.blocks[i].addr] + h.bins[ClassOf(h, i)]))
    ensures Links(m', heads[ClassOf(h, i) := h.blocks[i].addr], Attach(h, i)) && SameUsed(h, m, m')
  {
    var n, a := ClassOf(h, i), h.blocks[i].addr;
    var s, r := [a] + h.bins[n], Attach(h, i);
    BlockInWell(h, i);
    PushedChunks(h, i);
    MarkNodes(h, r, i, false);
    FreeCellsKeepAll(h, m, m', s);
    FreeCellsKeepUsed(h, m, m', s);
    forall j | 0 <= j < NUM_SIZES ensures BinLinked(m', heads[n := a][j], r.bins[j]) {
      if j != n {
        BinsApart(h, j, n);
        UsedNotListed(h, i, j);
        FreeCellsFrame(h, m, m', heads, s, j);
      }
    }
  }

  lemma MergeNodes(h: Heap, r: Heap, i: nat)
    requires i + 1 < |h.blocks| && r.blocks == Merge(h.blocks, i) && r.base == h.base && r.limit == h.limit
    ensures AllNodes(r) == RemoveAt(AllNodes(h), i + 2)
    ensures AllNodes(h)[i + 2] == h.blocks[i + 1].addr
  {
    var s, t := AllNodes(r), RemoveAt(AllNodes(h), i + 2);
    assert |s| == |t|;
    forall k | 0 <= k < |s| ensures s[k] == t[k] {
      if 0 < k < |s| - 1 {
        assert s[k] == r.blocks[k - 1].addr;
      }
    }
  }

  lemma MergedChunks(h: Heap, r: Heap, i: nat, x: int)
    requires i + 1 < |h.blocks| && r.blocks == Merge(h.blocks, i) && r.base == h.base && r.limit == h.limit
    requires h.blocks[i + 1].addr == x
    ensures forall a :: IsChunk(h, a) && a != x ==> IsChunk(r, a)
  {
    MergeNodes(h, r, i);
    forall a | IsChunk(h, a) && a != x ensures IsChunk(r, a) {
      var j :| 0 <= j < |AllNodes(h)| && AllNodes(h)[j] == a;
      assert AllNodes(r)[if j < i + 2 then j else j - 1] == a;
    }
  }

  lemma AbsorbLinks(h: Heap, i: nat, m: Memory, m': Memory, heads: seq<int>)
    requires Well(h) && Links(m, heads, h) && i + 1 < |h.blocks| && h.blocks[i].used && h.blocks[i + 1].used
    requires Ring(m', RemoveAt(AllNodes(h), i + 2)) && OnlyCells(m, m', AllNodes(h))
    ensures Links(m', heads, Absorb(h, i)) && SameUsed(h, m, m')
  {
    MergeNodes(h, Absorb(h, i), i);
    AllCellsFrame(h, m, m', heads);
    AllCellsKeepUsed(h, m, m');
  }

  lemma SplitNodes(h: Heap, r: Heap, i: nat, size: int)
    requires i < |h.blocks| && r.blocks == Split(h.blocks, i, size) && r.base == h.base && r.limit == h.limit
    ensures AllNodes(r) == InsertAt(AllNodes(h), i + 2, h.blocks[i].Ptr() + size)
    ensures i + 2 < |AllNodes(h)| && AllNodes(h)[i + 1] == h.blocks[i].addr
  {
    var s, t := AllNodes(r), InsertAt(AllNodes(h), i + 2, h.blocks[i].Ptr() + size);
    assert |s| == |t|;
    forall k | 0 <= k < |s| ensures s[k] == t[k] {
      if 0 < k < |s| - 1 {
        assert s[k] == r.blocks[k - 1].addr;
      }
    }
  }

  /** Writing the whole record of a chunk that is not in the heap yet disturbs nothing. */
  lemma NewChunkFrame(h: Heap, r: Heap, i: nat, size: int, m: Memory, m': Memory, heads: seq<int>)
    requires Well(h) && Links(m, heads, h) && i < |h.blocks| && h.blocks[i].used
    requires Well(r) && r.blocks == Split(h.blocks, i, size) && r.base == h.base && r.limit == h.limit
    requires forall a :: !(h.blocks[i].Ptr() + size <= a < h.blocks[i].Ptr() + size + CHUNK_SIZE)
               ==> Load(m', a) == Load(m, a)
    ensures Links(m', heads, h) && SameUsed(h, m, m')
    ensures Apart(AllNodes(h), [h.blocks[i].Ptr() + size])
  {
    var x := h.blocks[i].Ptr() + size;
    SplitNodes(h, r, i, size);
    forall a | IsChunk(h, a) ensures a + CHUNK_SIZE <= x || x + CHUNK_SIZE <= a {
      NewChunkApart(h, r, i, x, a);
    }
    forall k | 0 <= k < |AllNodes(h)|
      ensures AllNodes(h)[k] + CHUNK_SIZE <= x || x + CHUNK_SIZE <= AllNodes(h)[k]
    {
      assert IsChunk(h, AllNodes(h)[k]);
    }
    RingFrame(m, m', AllNodes(h));
    forall n | 0 <= n < NUM_SIZES ensures BinLinked(m', heads[n], h.bins[n]) {
      assert BinLinked(m, heads[n], h.bins[n]);
      BinChunks(h, n);
      if h.bins[n] != [] {
        RingFrame(m, m', FreeNodes(h.bins[n]));
      }
    }
  }

  lemma NewChunkApart(h: Heap, r: Heap, i: nat, x: int, a: int)
    requires Well(r) && i < |h.blocks| && AllNodes(r) == InsertAt(AllNodes(h), i + 2, x)
    requires IsChunk(h, a)
    ensures a + CHUNK_SIZE <= x || x + CHUNK_SIZE <= a
  {
    var k :| 0 <= k < |AllNodes(h)| && AllNodes(h)[k] == a;
    assert AllNodes(r)[i + 2] == x;
    assert AllNodes(r)[if k < i + 2 then k else k + 1] == a;
    if k < i + 2 {
      NodesAscend(r, k, i + 2);
    } else {
      NodesAscend(r, i + 2, k + 1);
    }
  }

  // ----- used bytes -------------------------------------------------------------------------------

  /** Writing the used byte of a chunk breaks no link and no other used byte. */
  lemma UsedWriteFrame(h: Heap, m: Memory, m': Memory, heads: seq<int>, x: int)
    requires Well(h) && Links(m, heads, h) && IsChunk(h, x)
    requires forall a :: a != x + USED_OFFSET ==> Load(m', a) == Load(m, a)
    ensures Links(m', heads, h)
    ensures forall a :: IsChunk(h, a) && a != x ==> Load(m', a + USED_OFFSET) == Load(m, a + USED_OFFSET)
  {
    forall k | 0 <= k < |AllNodes(h)|
      ensures AllNodes(h)[k] != x + USED_OFFSET && AllNodes(h)[k] + 4 != x + USED_OFFSET
    {
      assert IsChunk(h, AllNodes(h)[k]);
      if AllNodes(h)[k] != x { ChunksApart(h, AllNodes(h)[k], x); }
    }
    RingFrame(m, m', AllNodes(h));
    forall n | 0 <= n < NUM_SIZES ensures BinLinked(m', heads[n], h.bins[n]) {
      assert BinLinked(m, heads[n], h.bins[n]);
      if h.bins[n] != [] {
        BinChunks(h, n);
        forall k | 0 <= k < |h.bins[n]|
          ensures FreeNodes(h.bins[n])[k] != x + USED_OFFSET && FreeNodes(h.bins[n])[k] + 4 != x + USED_OFFSET
        {
          if h.bins[n][k] != x { ChunksApart(h, h.bins[n][k], x); }
        }
        RingFrame(m, m', FreeNodes(h.bins[n]));
      }
    }
  }

  /** A free node outside every ring survives the relinking of the address ring. */
  lemma SingleSurvives(h: Heap, m: Memory, m': Memory, x: int)
    requires Well(h) && IsChunk(h, x) && Ring(m, [x + HEADER_SIZE]) && OnlyCells(m, m', AllNodes(h))
    ensures Ring(m', [x + HEADER_SIZE])
  {
    assert Chunks(h, [x]);
    FreeApartAll(h, [x]);
    assert FreeNodes([x]) == [x + HEADER_SIZE];
    RingApart(m, m', [x + HEADER_SIZE], AllNodes(h));
  }

  lemma InsertedChunks(h: Heap, r: Heap, k: nat, x: int)
    requires k <= |AllNodes(h)| && AllNodes(r) == InsertAt(AllNodes(h), k, x)
    ensures IsChunk(r, x) && forall a :: IsChunk(h, a) ==> IsChunk(r, a)
  {
    assert AllNodes(r)[k] == x;
    forall a | IsChunk(h, a) ensures IsChunk(r, a) {
      var j :| 0 <= j < |AllNodes(h)| && AllNodes(h)[j] == a;
      assert AllNodes(r)[if j < k then j else j + 1] == a;
    }
  }

  /** Once the new chunk is in the address ring, the heap is the one with the chunk carved off. */
  lemma CarveLinks(h: Heap, r: Heap, i: nat, x: int, m: Memory, m': Memory, heads: seq<int>)
    requires Well(h) && Well(r) && Links(m, heads, h) && r.bins == h.bins && i < |h.blocks|
    requires AllNodes(r) == InsertAt(AllNodes(h), i + 2, x)
    requires Ring(m', AllNodes(r)) && OnlyCells(m, m', AllNodes(r))
    requires Ring(m, [x + HEADER_SIZE])
    ensures Links(m', heads, r) && IsChunk(r, x)
    ensures SameUsed(h, m, m') && Load(m', x + USED_OFFSET) == Load(m, x + USED_OFFSET)
    ensures Ring(m', [x + HEADER_SIZE])
  {
    assert AllNodes(r)[i + 2] == x;
    AllCellsFrame(r, m, m', heads);
    AllCellsKeepUsed(r, m, m');
    SingleSurvives(r, m, m', x);
    InsertedChunks(h, r, i + 2, x);
  }

  /** No used byte changes but those of blocks i to j. */
  ghost predicate OthersKept(h: Heap, i: nat, j: nat, m: Memory, m': Memory)
    requires i < |h.blocks| && j < |h.blocks|
  {
    forall a :: IsChunk(h, a) && a != h.blocks[i].addr && a != h.blocks[j].addr ==>
      Load(m', a + USED_OFFSET) == Load(m, a + USED_OFFSET)
  }

  /** Every used byte but those of blocks i and j, read after the change. */
  lemma OtherUsed(h: Heap, i: nat, j: nat, m: Memory, m': Memory)
    requires Well(h) && UsedWords(m, h) && i < |h.blocks| && j < |h.blocks| && OthersKept(h, i, j, m, m')
    ensures Load(m', h.base - CHUNK_SIZE + USED_OFFSET) == 1 && Load(m', h.limit + USED_OFFSET) == 1
    ensures forall k :: 0 <= k < |h.blocks| && k != i && k != j ==>
              Load(m', h.blocks[k].addr + USED_OFFSET) == if h.blocks[k].used then 1 else 0
  {
    hide Tiles, BinsAgree, IsChunk, AllNodes, IndexOf, Slot, GoodSize;
    BlockInWell(h, i);
    BlockInWell(h, j);
    ChunkCases(h, h.base - CHUNK_SIZE);
    ChunkCases(h, h.limit);
    forall k | 0 <= k < |h.blocks| && k != i && k != j
      ensures Load(m', h.blocks[k].addr + USED_OFFSET) == if h.blocks[k].used then 1 else 0
    {
      ChunkCases(h, h.blocks[k].addr);
      BlockInWell(h, k);
    }
  }

  ghost predicate UsedAt(m: Memory, b: Block) {
    Load(m, b.addr + USED_OFFSET) == if b.used then 1 else 0
  }

  lemma GrantUsedAt(bs: seq<Block>, i: nat, request: nat, m: Memory)
    requires i < |bs| && forall k :: 0 <= k < |bs| && k != i ==> UsedAt(m, bs[k])
    requires Load(m, bs[i].addr + USED_OFFSET) == 1
    requires RoundedSize(request) + CHUNK_SIZE <= bs[i].size ==>
               Load(m, bs[i].Ptr() + RoundedSize(request) + USED_OFFSET) == 0
    ensures forall k :: 0 <= k < |Granted(bs, i, request)| ==> UsedAt(m, Granted(bs, i, request)[k])
  {
    var t, extra := Granted(bs, i, request), |Remainder(bs[i], RoundedSize(request))|;
    forall k | 0 <= k < |t| ensures UsedAt(m, t[k]) {
      if k < i || k > i + extra {
        assert t[k] == bs[if k < i then k else k - extra];
      } else if k > i {
        assert t[k] == Remainder(bs[i], RoundedSize(request))[0];
      }
    }
  }

  lemma UsedAfterGrant(h: Heap, r: Heap, i: nat, request: nat, m: Memory, m': Memory)
    requires Well(h) && UsedWords(m, h) && i < |h.blocks| && !h.blocks[i].used && OthersKept(h, i, i, m, m')
    requires r.blocks == Granted(h.blocks, i, request) && r.base == h.base && r.limit == h.limit
    requires Load(m', h.blocks[i].addr + USED_OFFSET) == 1
    requires RoundedSize(request) + CHUNK_SIZE <= h.blocks[i].size ==>
               Load(m', h.blocks[i].Ptr() + RoundedSize(request) + USED_OFFSET) == 0
    ensures UsedWords(m', r)
  {
    OtherUsed(h, i, i, m, m');
    GrantUsedAt(h.blocks, i, request, m');
    assert forall k :: 0 <= k < |r.blocks| ==> UsedAt(m', r.blocks[k]);
  }

  lemma ReleaseUsedAt(bs: seq<Block>, i: nat, m: Memory)
    requires i < |bs| && forall k :: 0 <= k < |bs| && k != i && k != MeltTo(bs, i) ==> UsedAt(m, bs[k])
    requires MeltFrom(bs, i) == i ==> Load(m, bs[i].addr + USED_OFFSET) == 0
    ensures forall k :: 0 <= k < |Released(bs, i)| ==> UsedAt(m, Released(bs, i)[k])
  {
    var t, from, to := Released(bs, i), MeltFrom(bs, i), MeltTo(bs, i);
    forall k | 0 <= k < |t| ensures UsedAt(m, t[k]) {
      if k == from {
        assert t[k] == Melted(bs, i);
        assert from < i ==> UsedAt(m, bs[from]);
      } else {
        assert t[k] == bs[if k < from then k else k + to - from];
      }
    }
  }

  lemma UsedAfterRelease(h: Heap, r: Heap, i: nat, m: Memory, m': Memory)
    requires Well(h) && UsedWords(m, h) && i < |h.blocks| && h.blocks[i].used
    requires OthersKept(h, i, MeltTo(h.blocks, i), m, m')
    requires r.blocks == Released(h.blocks, i) && r.base == h.base && r.limit == h.limit
    requires MeltFrom(h.blocks, i) == i ==> Load(m', h.blocks[i].addr + USED_OFFSET) == 0
    ensures UsedWords(m', r)
  {
    OtherUsed(h, i, MeltTo(h.blocks, i), m, m');
    ReleaseUsedAt(h.blocks, i, m');
    assert forall k :: 0 <= k < |r.blocks| ==> UsedAt(m', r.blocks[k]);
  }

  /** The free node of a used block belongs to no ring, so writing it disturbs nothing. */
  lemma LooseNodeFrame(h: Heap, i: nat, m: Memory, m': Memory, heads: seq<int>)
    requires Well(h) && Links(m, heads, h) && i < |h.blocks| && h.blocks[i].used
    requires OnlyCells(m, m', [h.blocks[i].Ptr()])
    ensures Links(m', heads, h) && SameUsed(h, m, m')
  {
    var x := h.blocks[i].addr;
    ChunkCases(h, x);
    assert Chunks(h, [x]) && FreeNodes([x]) == [h.blocks[i].Ptr()];
    FreeCellsKeepAll(h, m, m', [x]);
    FreeCellsKeepUsed(h, m, m', [x]);
    forall n | 0 <= n < NUM_SIZES ensures BinLinked(m', heads[n], h.bins[n]) {
      UsedNotListed(h, i, n);
      FreeCellsFrame(h, m, m', heads, [x], n);
    }
  }

  /** Melting the right neighbour does not change what the left one's used byte says. */
  lemma PrevKept(h: Heap, r: Heap, i: nat, m: Memory, m': Memory, prev: int)
    requires Well(h) && i < |h.blocks| && i < |r.blocks| && r.blocks[..i] == h.blocks[..i]
    requires i > 0 ==> prev == h.blocks[i - 1].addr
    requires i == 0 ==> prev == h.base - CHUNK_SIZE
    requires SameUsed(h, m, m')
    ensures Load(m', prev + USED_OFFSET) == Load(m, prev + USED_OFFSET)
    ensures MeltFrom(r.blocks, i) == MeltFrom(h.blocks, i)
    ensures i > 0 ==> prev == r.blocks[i - 1].addr
  {
    ChunkCases(h, prev);
    if i > 0 {
      assert r.blocks[i - 1] == r.blocks[..i][i - 1] == h.blocks[i - 1];
    }
  }

  lemma NextChunks(h: Heap, i: nat)
    requires Well(h) && i < |h.blocks| && h.blocks[i].used
    ensures forall a :: IsChunk(h, a) && a != h.blocks[i].addr && a != h.blocks[MeltTo(h.blocks, i)].addr ==>
              IsChunk(FreeWithNext(h, i), a)
  {
    if MeltTo(h.blocks, i) == i + 1 {
      var d := RemoveFree(h, i + 1);
      MarkNodes(h, d, i + 1, true);
      MergedChunks(d, Absorb(d, i), i, h.blocks[i + 1].addr);
    }
  }

  lemma KeptChain(h: Heap, h0: Heap, i: nat, m: Memory, m1: Memory, m2: Memory)
    requires Well(h) && Well(h0) && h0 == h.(memUsed := h0.memUsed) && i < |h.blocks| && h.blocks[i].used
    requires SameUsed(h0, m, m1)
    requires forall a :: IsChunk(FreeWithNext(h0, i), a) && a != h.blocks[i].addr ==>
               Load(m2, a + USED_OFFSET) == Load(m1, a + USED_OFFSET)
    ensures OthersKept(h, i, MeltTo(h.blocks, i), m, m2)
  {
    NextChunks(h0, i);
    SameLayout(m, [], h, h0);
    hide FreeWithNext, IsChunk, Well;
  }

  /** A word inside the data of a used block holds no link and no used byte. */
  lemma DataWriteFrame(h: Heap, m: Memory, m': Memory, heads: seq<int>, x: int, i: nat)
    requires Well(h) && Links(m, heads, h) && UsedWords(m, h) && i < |h.blocks| && h.blocks[i].used
    requires h.blocks[i].Ptr() <= x < h.blocks[i].End()
    requires forall a :: a != x ==> Load(m', a) == Load(m, a)
    ensures Links(m', heads, h) && UsedWords(m', h)
  {
    forall a | IsChunk(h, a) ensures a + HEADER_SIZE <= x || x < a {
      DataApart(h, a, x, i);
    }
    forall k | 0 <= k < |AllNodes(h)| ensures AllNodes(h)[k] + HEADER_SIZE <= x || x < AllNodes(h)[k] {
      assert IsChunk(h, AllNodes(h)[k]);
    }
    RingFrame(m, m', AllNodes(h));
    forall n | 0 <= n < NUM_SIZES ensures BinLinked(m', heads[n], h.bins[n]) {
      DataKeepsBin(h, m, m', heads[n], x, i, n);
    }
    DataKeepsUsed(h, m, m', x, i);
  }

  /** x lies beyond the record of every chunk on its left and before every chunk on its right. */
  lemma DataApart(h: Heap, a: int, x: int, i: nat)
    requires Well(h) && IsChunk(h, a) && i < |h.blocks| && h.blocks[i].Ptr() <= x < h.blocks[i].End()
    ensures a + HEADER_SIZE <= x || x < a
    ensures a != h.blocks[i].addr ==> a + CHUNK_SIZE <= x || x < a
  {
    ChunkCases(h, a);
    BlockInWell(h, i);
    if k :| 0 <= k < |h.blocks| && h.blocks[k].addr == a {
      BlockInWell(h, k);
      if k < i { Ordered(h.blocks, h.base, h.limit, k, i); }
      if k > i { Ordered(h.blocks, h.base, h.limit, i, k); }
    }
  }

  lemma DataKeepsBin(h: Heap, m: Memory, m': Memory, head: int, x: int, i: nat, n: nat)
    requires Well(h) && n < NUM_SIZES && BinLinked(m, head, h.bins[n])
    requires i < |h.blocks| && h.blocks[i].used && h.blocks[i].Ptr() <= x < h.blocks[i].End()
    requires forall a :: a != x ==> Load(m', a) == Load(m, a)
    ensures BinLinked(m', head, h.bins[n])
  {
    var s := h.bins[n];
    if s != [] {
      BinChunks(h, n);
      UsedNotListed(h, i, n);
      forall k | 0 <= k < |s| ensures FreeNodes(s)[k] + 8 <= x || x < FreeNodes(s)[k] {
        assert s[k] in s;
        DataApart(h, s[k], x, i);
      }
      RingFrame(m, m', FreeNodes(s));
    }
  }

  lemma DataKeepsUsed(h: Heap, m: Memory, m': Memory, x: int, i: nat)
    requires Well(h) && UsedWords(m, h) && i < |h.blocks| && h.blocks[i].Ptr() <= x < h.blocks[i].End()
    requires forall a :: a != x ==> Load(m', a) == Load(m, a)
    ensures UsedWords(m', h)
  {
    ChunkCases(h, h.base - CHUNK_SIZE);
    ChunkCases(h, h.limit);
    DataApart(h, h.base - CHUNK_SIZE, x, i);
    DataApart(h, h.limit, x, i);
    forall k | 0 <= k < |h.blocks|
      ensures Load(m', h.blocks[k].addr + USED_OFFSET) == if h.blocks[k].used then 1 else 0
    {
      ChunkCases(h, h.blocks[k].addr);
      DataApart(h, h.blocks[k].addr, x, i);
    }
  }
}
