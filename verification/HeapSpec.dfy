/** What the kernel heap means: a sequence of blocks that tile a memory range, and one list of
    free blocks per size class. The allocator of Heap.dfy is proved to follow these definitions. */
module HeapSpec {
  import opened Basics

  const NUM_SIZES := 32
  const ALIGN := 4
  const MIN_SIZE := 8
  const HEADER_SIZE := 12
  const CHUNK_SIZE := 20   // sizeof(mem_chunk_t): the header and the links of a free block
  const WORD := UINT32

  function Wrap(x: int): int {
    x % WORD
  }

  lemma WrapAdd(x: int, y: int)
    ensures Wrap(Wrap(x) + y) == Wrap(x + y)
  {
  }

  // ----- size classes ---------------------------------------------------------------------------

  /** The number of halvings that bring size to 0, less one. */
  function Slot(size: nat): int {
    if size == 0 then -1 else 1 + Slot(size / 2)
  }

  lemma {:induction false} SlotBounds(size: nat)
    requires size > 0
    ensures Slot(size) >= 0
    ensures Pow2(Slot(size)) <= size < Pow2(Slot(size) + 1)
  {
    if size == 1 {
      assert Slot(1) == 1 + Slot(0);
      assert Pow2(1) == 2 * Pow2(0);
    } else {
      SlotBounds(size / 2);
    }
  }

  lemma {:induction false} Pow2Monotone(m: nat, n: nat)
    requires m <= n
    ensures Pow2(m) <= Pow2(n)
    decreases n
  {
    if m < n {
      Pow2Monotone(m, n - 1);
    }
  }

  lemma Pow2At32()
    ensures Pow2(31) == 0x8000_0000 && Pow2(32) == WORD
  {
    assert Pow2(4) == 16;
    assert Pow2(8) == 256;
    assert Pow2(12) == 4096;
    assert Pow2(16) == 65536;
    assert Pow2(20) == 0x10_0000;
    assert Pow2(24) == 0x100_0000;
    assert Pow2(28) == 0x1000_0000;
  }

  lemma SlotBelow32(size: nat)
    requires 0 < size < WORD
    ensures 0 <= Slot(size) < NUM_SIZES
  {
    SlotBounds(size);
    Pow2At32();
    if Slot(size) >= 32 {
      Pow2Monotone(32, Slot(size));
    }
  }

  /** Rounding a request up to a multiple of 4 in 32-bit arithmetic, and to at least MIN_SIZE. */
  function RoundedSize(request: nat): nat {
    var x := Wrap(request + ALIGN - 1);
    var aligned := x - x % ALIGN;
    if aligned < MIN_SIZE then MIN_SIZE else aligned
  }

  function ClassFor(size: nat): nat
    requires size > 1
  {
    SlotBounds(size - 1);
    Slot(size - 1) + 1
  }

  /** The class searched first is the least power of two that is not below the size. */
  lemma ClassForIsCeiling(size: nat)
    requires size > 1
    ensures Pow2(ClassFor(size)) >= size
    ensures forall k: nat :: Pow2(k) >= size ==> k >= ClassFor(size)
  {
    SlotBounds(size - 1);
    forall k: nat | Pow2(k) >= size ensures k >= ClassFor(size) {
      if k < ClassFor(size) {
        Pow2Monotone(k, Slot(size - 1));
      }
    }
  }

  /** n is the exponent of the least power of two that is not below the size. */
  ghost predicate LeastPower(size: nat, n: nat) {
    Pow2(n) >= size && forall k: nat :: Pow2(k) >= size ==> k >= n
  }

  lemma ClassForIff(size: nat, n: nat)
    requires size > 1
    ensures LeastPower(size, n) <==> n == ClassFor(size)
  {
    ClassForIsCeiling(size);
  }

  /** Sizes that kmalloc may hand out for a request: multiples of 4 from 8 on that are not below it. */
  predicate Suits(request: nat, size: nat) {
    size % 4 == 0 && size >= 8 && size >= request
  }

  /** What kmalloc makes of a request: the least size that suits it, or, when no 32-bit size does, 8. */
  ghost predicate RoundsTo(request: nat, size: nat) {
    if request <= 0xFFFF_FFFC then Suits(request, size) && forall m: nat :: Suits(request, m) ==> size <= m
    else size == 8
  }

  lemma RoundedSizeIff(request: nat, size: nat)
    requires request < WORD
    ensures RoundsTo(request, size) <==> size == RoundedSize(request)
  {
    RoundedSizeBounds(request);
    var r := RoundedSize(request);
    if request <= WORD - ALIGN {
      assert Suits(request, r);
      assert r - ALIGN < request || r == MIN_SIZE by {
        var x := request + 3;
        assert Wrap(x) == x;
      }
      forall m: nat | Suits(request, m) ensures r <= m {
        MultiplesApart(m, r);
      }
    }
  }

  lemma MultiplesApart(m: nat, r: nat)
    requires m % 4 == 0 && r % 4 == 0
    ensures m < r ==> m <= r - 4
  {
  }

  lemma RoundedSizeBounds(request: nat)
    requires request < WORD
    ensures RoundedSize(request) % ALIGN == 0
    ensures MIN_SIZE <= RoundedSize(request) <= WORD - ALIGN
    ensures request <= WORD - ALIGN ==> RoundedSize(request) >= request
    ensures request > WORD - ALIGN ==> RoundedSize(request) == MIN_SIZE
  {
    var x := Wrap(request + 3);
    if request <= WORD - ALIGN {
      assert x == request + 3;
    } else {
      assert x == request + 3 - WORD;
    }
  }

  // ----- blocks ---------------------------------------------------------------------------------

  datatype Block = Block(addr: int, size: int, used: bool) {
    function End(): int {
      addr + HEADER_SIZE + size
    }

    function Ptr(): int {
      addr + HEADER_SIZE
    }
  }

  /** The blocks are 4-aligned, large enough, and cover [lo, hi) without gap or overlap. */
  ghost predicate Tiles(bs: seq<Block>, lo: int, hi: int) {
    && |bs| > 0
    && bs[0].addr == lo
    && bs[|bs| - 1].End() == hi
    && (forall i :: 0 <= i < |bs| - 1 ==> bs[i].End() == bs[i + 1].addr)
    && (forall i :: 0 <= i < |bs| ==> GoodSize(bs[i]))
  }

  ghost predicate GoodSize(b: Block) {
    b.size >= MIN_SIZE && b.size % ALIGN == 0 && b.addr % ALIGN == 0
  }

  ghost predicate NoFreeNeighbours(bs: seq<Block>) {
    forall i :: 0 <= i < |bs| - 1 ==> bs[i].used || bs[i + 1].used
  }

  lemma {:induction false} Ordered(bs: seq<Block>, lo: int, hi: int, i: nat, j: nat)
    requires Tiles(bs, lo, hi) && i < j < |bs|
    ensures bs[i].End() <= bs[j].addr
    decreases j
  {
    assert GoodSize(bs[j - 1]);
    if i < j - 1 {
      Ordered(bs, lo, hi, i, j - 1);
    }
  }

  lemma WithinRange(bs: seq<Block>, lo: int, hi: int, i: nat)
    requires Tiles(bs, lo, hi) && i < |bs|
    ensures lo <= bs[i].addr && bs[i].End() <= hi
  {
    assert GoodSize(bs[0]) && GoodSize(bs[|bs| - 1]);
    if i > 0 { Ordered(bs, lo, hi, 0, i); }
    if i < |bs| - 1 { Ordered(bs, lo, hi, i, |bs| - 1); }
  }

  function IndexOf(bs: seq<Block>, a: int): (i: nat)
    ensures i <= |bs|
    ensures i < |bs| ==> bs[i].addr == a
    ensures forall j :: 0 <= j < i ==> bs[j].addr != a
  {
    if bs == [] then 0
    else if bs[0].addr == a then 0
    else
      var i := IndexOf(bs[1..], a);
      assert forall j :: 0 < j <= i ==> j - 1 < i && (j < |bs| ==> bs[1..][j - 1] == bs[j]);
      i + 1
  }

  lemma IndexOfAt(bs: seq<Block>, lo: int, hi: int, i: nat)
    requires Tiles(bs, lo, hi) && i < |bs|
    ensures IndexOf(bs, bs[i].addr) == i
  {
    var k := IndexOf(bs, bs[i].addr);
    if k < i {
      assert GoodSize(bs[k]);
      Ordered(bs, lo, hi, k, i);
    }
  }

  // ----- free lists -----------------------------------------------------------------------------

  function FreeAddrs(bs: seq<Block>, n: int): set<int> {
    set b | b in bs && !b.used && b.size > 0 && Slot(b.size) == n :: b.addr
  }

  ghost predicate NoDup(s: seq<int>) {
    forall i, j :: 0 <= i < j < |s| ==> s[i] != s[j]
  }

  function Elements(s: seq<int>): set<int> {
    set a | a in s
  }

  /** List n holds each free block with size in class n exactly once, and nothing else. */
  ghost predicate BinsAgree(bs: seq<Block>, bins: seq<seq<int>>) {
    && |bins| == NUM_SIZES
    && forall n :: 0 <= n < NUM_SIZES ==> NoDup(bins[n]) && Elements(bins[n]) == FreeAddrs(bs, n)
  }

  function Position(s: seq<int>, a: int): (k: nat)
    ensures k <= |s|
    ensures k < |s| ==> s[k] == a
    ensures a in s ==> k < |s|
  {
    if s == [] || s[0] == a then 0 else 1 + Position(s[1..], a)
  }

  function Without(s: seq<int>, a: int): seq<int> {
    var k := Position(s, a);
    if k < |s| then s[..k] + s[k + 1..] else s
  }

  function PutBin(bins: seq<seq<int>>, n: nat, a: int): seq<seq<int>>
    requires n < |bins|
  {
    bins[n := [a] + bins[n]]
  }

  function TakeBin(bins: seq<seq<int>>, n: nat, a: int): seq<seq<int>>
    requires n < |bins|
  {
    bins[n := Without(bins[n], a)]
  }

  lemma WithoutElements(s: seq<int>, a: int)
    requires NoDup(s) && a in s
    ensures NoDup(Without(s, a)) && Elements(Without(s, a)) == Elements(s) - {a}
    ensures |Without(s, a)| == |s| - 1
  {
    var k := Position(s, a);
    var t := Without(s, a);
    forall x ensures x in t <==> x in s && x != a {
      if x in s && x != a {
        var i :| 0 <= i < |s| && s[i] == x;
        assert t[if i < k then i else i - 1] == x;
      }
    }
  }

  // ----- the four changes a heap operation is made of --------------------------------------------

  function Mark(bs: seq<Block>, i: nat, used: bool): seq<Block>
    requires i < |bs|
  {
    bs[i := bs[i].(used := used)]
  }

  /** Block i swallows block i + 1 together with its header. */
  function Merge(bs: seq<Block>, i: nat): seq<Block>
    requires i + 1 < |bs|
  {
    bs[..i] + [bs[i].(size := bs[i].size + HEADER_SIZE + bs[i + 1].size)] + bs[i + 2..]
  }

  /** Block i keeps its first bytes; the rest, less a header, becomes a block of its own. */
  function Split(bs: seq<Block>, i: nat, size: int): seq<Block>
    requires i < |bs|
  {
    var b := bs[i];
    bs[..i] + [b.(size := size), Block(b.Ptr() + size, b.size - size - HEADER_SIZE, true)] + bs[i + 1..]
  }

  lemma MarkTiles(bs: seq<Block>, lo: int, hi: int, i: nat, used: bool)
    requires Tiles(bs, lo, hi) && i < |bs|
    ensures Tiles(Mark(bs, i, used), lo, hi)
  {
    var t := Mark(bs, i, used);
    forall k | 0 <= k < |t| ensures GoodSize(t[k]) {
      assert GoodSize(bs[k]);
    }
  }

  lemma MergeTiles(bs: seq<Block>, lo: int, hi: int, i: nat)
    requires Tiles(bs, lo, hi) && i + 1 < |bs|
    ensures Tiles(Merge(bs, i), lo, hi)
  {
    var t := Merge(bs, i);
    assert GoodSize(bs[i]) && GoodSize(bs[i + 1]);
    forall k | 0 <= k < |t| ensures GoodSize(t[k]) {
      if k != i { assert t[k] == bs[if k < i then k else k + 1]; }
    }
    forall k | 0 <= k < |t| - 1 ensures t[k].End() == t[k + 1].addr {
      assert bs[i].End() == bs[i + 1].addr;
      if k < i {
        assert t[k] == bs[k] && t[k + 1].addr == bs[k + 1].addr;
      } else {
        assert t[k].End() == bs[k + 1].End() && t[k + 1] == bs[k + 2];
      }
    }
  }

  lemma SplitTiles(bs: seq<Block>, lo: int, hi: int, i: nat, size: int)
    requires Tiles(bs, lo, hi) && i < |bs|
    requires size >= MIN_SIZE && size % ALIGN == 0 && size + CHUNK_SIZE <= bs[i].size
    ensures Tiles(Split(bs, i, size), lo, hi)
  {
    var t := Split(bs, i, size);
    assert GoodSize(bs[i]);
    forall k | 0 <= k < |t| ensures GoodSize(t[k]) {
      if k != i && k != i + 1 { assert t[k] == bs[if k < i then k else k - 1]; }
    }
    forall k | 0 <= k < |t| - 1 ensures t[k].End() == t[k + 1].addr {
      if k < i {
        assert t[k] == bs[k] && t[k + 1].addr == bs[k + 1].addr;
      } else if k > i {
        assert t[k].End() == bs[k - 1].End() && t[k + 1] == bs[k];
      }
    }
  }

  lemma DistinctAddrs(bs: seq<Block>, lo: int, hi: int, i: nat, j: nat)
    requires Tiles(bs, lo, hi) && i < |bs| && j < |bs| && bs[i].addr == bs[j].addr
    ensures i == j
  {
    IndexOfAt(bs, lo, hi, i);
    IndexOfAt(bs, lo, hi, j);
  }

  /** Marking a block used takes it out of its class and changes no class otherwise. */
  lemma MarkUsedFree(bs: seq<Block>, lo: int, hi: int, i: nat, n: int)
    requires Tiles(bs, lo, hi) && i < |bs|
    ensures FreeAddrs(Mark(bs, i, true), n) == FreeAddrs(bs, n) - {bs[i].addr}
  {
    var t := Mark(bs, i, true);
    forall a ensures a in FreeAddrs(t, n) <==> a in FreeAddrs(bs, n) && a != bs[i].addr {
      if a in FreeAddrs(t, n) {
        var b :| b in t && !b.used && b.size > 0 && Slot(b.size) == n && b.addr == a;
        var k :| 0 <= k < |t| && t[k] == b;
        if k != i && a == bs[i].addr { DistinctAddrs(bs, lo, hi, k, i); }
      }
      if a in FreeAddrs(bs, n) && a != bs[i].addr {
        var b :| b in bs && !b.used && b.size > 0 && Slot(b.size) == n && b.addr == a;
        var k :| 0 <= k < |bs| && bs[k] == b;
        assert t[k] == b;
      }
    }
  }

  lemma MarkFreeFree(bs: seq<Block>, lo: int, hi: int, i: nat, n: int)
    requires Tiles(bs, lo, hi) && i < |bs| && bs[i].used
    ensures bs[i].addr !in FreeAddrs(bs, n)
    ensures FreeAddrs(Mark(bs, i, false), n)
         == FreeAddrs(bs, n) + if GoodSize(bs[i]) && Slot(bs[i].size) == n then {bs[i].addr} else {}
  {
    var t := Mark(bs, i, false);
    MarkTiles(bs, lo, hi, i, false);
    MarkUsedFree(t, lo, hi, i, n);
    assert Mark(t, i, true) == bs;
    assert GoodSize(bs[i]) && t[i] in t;
    if bs[i].addr in FreeAddrs(t, n) {
      var b :| b in t && !b.used && b.size > 0 && Slot(b.size) == n && b.addr == bs[i].addr;
      var k :| 0 <= k < |t| && t[k] == b;
      DistinctAddrs(t, lo, hi, k, i);
    }
  }

  lemma MergeFree(bs: seq<Block>, i: nat, n: int)
    requires i + 1 < |bs| && bs[i].used && bs[i + 1].used
    ensures FreeAddrs(Merge(bs, i), n) == FreeAddrs(bs, n)
  {
    assert bs == bs[..i] + [bs[i], bs[i + 1]] + bs[i + 2..];
  }

  lemma SplitFree(bs: seq<Block>, i: nat, size: int, n: int)
    requires i < |bs| && bs[i].used
    ensures FreeAddrs(Split(bs, i, size), n) == FreeAddrs(bs, n)
  {
    assert bs == bs[..i] + [bs[i]] + bs[i + 1..];
  }

  lemma TakeAgrees(bs: seq<Block>, bins: seq<seq<int>>, lo: int, hi: int, i: nat)
    requires Tiles(bs, lo, hi) && BinsAgree(bs, bins) && i < |bs| && !bs[i].used
    requires 0 <= Slot(bs[i].size) < NUM_SIZES
    ensures bs[i].addr in bins[Slot(bs[i].size)]
    ensures BinsAgree(Mark(bs, i, true), TakeBin(bins, Slot(bs[i].size), bs[i].addr))
  {
    var n, a := Slot(bs[i].size), bs[i].addr;
    assert GoodSize(bs[i]) && bs[i] in bs;
    assert a in FreeAddrs(bs, n);
    assert a in Elements(bins[n]);
    WithoutElements(bins[n], a);
    forall k | 0 <= k < NUM_SIZES
      ensures NoDup(TakeBin(bins, n, a)[k])
      ensures Elements(TakeBin(bins, n, a)[k]) == FreeAddrs(Mark(bs, i, true), k)
    {
      MarkUsedFree(bs, lo, hi, i, k);
      if k != n && a in FreeAddrs(bs, k) {
        var b :| b in bs && !b.used && b.size > 0 && Slot(b.size) == k && b.addr == a;
        var j :| 0 <= j < |bs| && bs[j] == b;
        DistinctAddrs(bs, lo, hi, j, i);
      }
    }
  }

  lemma PutAgrees(bs: seq<Block>, bins: seq<seq<int>>, lo: int, hi: int, i: nat)
    requires Tiles(bs, lo, hi) && BinsAgree(bs, bins) && i < |bs| && bs[i].used
    requires 0 <= Slot(bs[i].size) < NUM_SIZES
    ensures BinsAgree(Mark(bs, i, false), PutBin(bins, Slot(bs[i].size), bs[i].addr))
  {
    var n, a := Slot(bs[i].size), bs[i].addr;
    forall k | 0 <= k < NUM_SIZES
      ensures NoDup(PutBin(bins, n, a)[k])
      ensures Elements(PutBin(bins, n, a)[k]) == FreeAddrs(Mark(bs, i, false), k)
    {
      MarkFreeFree(bs, lo, hi, i, k);
      assert GoodSize(bs[i]);
      assert Elements(bins[k]) == FreeAddrs(bs, k);
      if k == n {
        assert a !in bins[n];
        assert forall x :: x in [a] + bins[n] <==> x == a || x in bins[n];
        assert Elements([a] + bins[n]) == Elements(bins[n]) + {a};
      }
    }
  }
}
