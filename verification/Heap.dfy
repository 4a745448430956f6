/** The kernel heap allocator over words of memory, proved to follow HeapModel. */
module Heap {
  import opened LinkMemory
  import opened HeapSpec
  import opened HeapLayout
  import HeapModel
  import HeapTheorems
  import HeapSystem

  class KernelHeap {
    var mem: Memory
    const freeChunk: array<int>
    var firstChunk: int
    var lastChunk: int
    var memFree: int
    var memUsed: int
    var memMeta: int

    /** The abstract heap that the words above stand for. */
    ghost var heap: HeapModel.Heap

    // ----- setup_kheap --------------------------------------------------------------------------

    static function AlignUp(a: int): int {
      (a + ALIGN - 1) - (a + ALIGN - 1) % ALIGN
    }

    static function AlignDown(a: int): int {
      a - a % ALIGN
    }

    /** Lays the first sentinel, one free chunk and the last sentinel over a memory range that has
        room for them, whatever that memory holds. */
    constructor (heapStart: int, size: int, initial: Memory)
      requires 0 < heapStart && heapStart + size < WORD
      requires AlignUp(heapStart) + 3 * CHUNK_SIZE <= AlignDown(heapStart + size)
      ensures Valid() && fresh(freeChunk)
      ensures heap == HeapSystem.Fresh(AlignUp(heapStart) + CHUNK_SIZE, AlignDown(heapStart + size) - CHUNK_SIZE)
    {
      var memStart := (heapStart + ALIGN - 1) - (heapStart + ALIGN - 1) % ALIGN;
      var memEnd := (heapStart + size) - (heapStart + size) % ALIGN;
      mem := initial;
      freeChunk := new int[NUM_SIZES](_ => NULL);
      firstChunk := memStart;
      lastChunk := memEnd - CHUNK_SIZE;
      memFree, memUsed, memMeta := 0, 0, 0;
      heap := HeapSystem.Fresh(memStart + CHUNK_SIZE, memEnd - CHUNK_SIZE);
      new;
      HeapSystem.FreshHolds(memStart + CHUNK_SIZE, lastChunk);
      LayOut(memStart + CHUNK_SIZE);
    }

    method LayOut(second: int)
      requires freeChunk.Length == NUM_SIZES && forall k :: 0 <= k < NUM_SIZES ==> freeChunk[k] == NULL
      requires HeapSystem.GoodRange(second, lastChunk) && firstChunk == second - CHUNK_SIZE && memUsed == 0
      requires heap == HeapSystem.Fresh(second, lastChunk) && HeapModel.Well(heap)
      modifies this`mem, this`memFree, this`memMeta, freeChunk
      ensures Sound() && UsedWords(mem, heap)
    {
      hide Ring, Links, UsedWords, HeapModel.Well;
      LinkThree(firstChunk, second, lastChunk);
      MarkSentinels(firstChunk, second, lastChunk);
      var len := MemoryChunkSize(second);
      SlotBelow32(len);
      var n := MemoryChunkSlot(len);
      ListFirst(n, second, len);
      memFree := Wrap(len - HEADER_SIZE);
      memMeta := Wrap(CHUNK_SIZE * 2 + HEADER_SIZE);
    }

    /** Three new chunks, each on rings of its own. */
    method BlankThree(first: int, second: int, last: int)
      requires first + CHUNK_SIZE <= second && second + CHUNK_SIZE <= last
      modifies this`mem
      ensures Ring(mem, [first]) && Ring(mem, [second]) && Ring(mem, [last]) && Ring(mem, [second + HEADER_SIZE])
      ensures Load(mem, second + USED_OFFSET) == 0
    {
      hide Ring;
      MemoryChunkInit(first);
      ghost var m0 := mem;
      MemoryChunkInit(second);
      ghost var m1 := mem;
      MemoryChunkInit(last);
      SingleKept(m0, mem, first);
      SingleKept(m1, mem, second);
      SingleKept(m1, mem, second + HEADER_SIZE);
    }

    /** The three linked in this order. */
    method LinkThree(first: int, second: int, last: int)
      requires first + CHUNK_SIZE <= second && second + CHUNK_SIZE <= last
      modifies this`mem
      ensures Ring(mem, [first, second, last]) && Ring(mem, [second + HEADER_SIZE])
      ensures Load(mem, second + USED_OFFSET) == 0
    {
      BlankThree(first, second, last);
      hide Ring;
      ghost var m2 := mem;
      assert InsertAt([first], 1, second) == [first, second];
      InsertAfter(first, second, [first], 0);
      KeptBy(m2, mem, [first, second], last, second);
      ghost var m3 := mem;
      assert InsertAt([first, second], 2, last) == [first, second, last];
      InsertAfter(second, last, [first, second], 1);
      SlotKeptBy(m3, mem, [first, second, last], second);
    }

    /** Linking the first two leaves the third, and the second's free list and mark, alone. */
    static lemma KeptBy(m: Memory, m': Memory, cells: seq<int>, last: int, second: int)
      requires |cells| == 2 && cells[1] == second && cells[0] + CHUNK_SIZE <= second && second + CHUNK_SIZE <= last
      requires OnlyCells(m, m', cells) && Ring(m, [last]) && Ring(m, [second + HEADER_SIZE])
      requires Load(m, second + USED_OFFSET) == 0
      ensures Ring(m', [last]) && Ring(m', [second + HEADER_SIZE]) && Load(m', second + USED_OFFSET) == 0
    {
      RingApart(m, m', [last], cells);
      RingApart(m, m', [second + HEADER_SIZE], cells);
      assert !IsCell(cells, second + USED_OFFSET);
    }

    static lemma SlotKeptBy(m: Memory, m': Memory, cells: seq<int>, second: int)
      requires |cells| == 3 && cells[1] == second && cells[0] + CHUNK_SIZE <= second && second + CHUNK_SIZE <= cells[2]
      requires OnlyCells(m, m', cells) && Ring(m, [second + HEADER_SIZE]) && Load(m, second + USED_OFFSET) == 0
      ensures Ring(m', [second + HEADER_SIZE]) && Load(m', second + USED_OFFSET) == 0
    {
      RingApart(m, m', [second + HEADER_SIZE], cells);
      assert !IsCell(cells, second + USED_OFFSET);
    }

    static lemma SingleKept(m: Memory, m': Memory, x: int)
      requires Ring(m, [x]) && Next(m', x) == Next(m, x) && Prev(m', x) == Prev(m, x)
      ensures Ring(m', [x])
    {
      RingFrame(m, m', [x]);
    }

    /** Both sentinels count as used. */
    method MarkSentinels(first: int, second: int, last: int)
      requires first + CHUNK_SIZE <= second && second + CHUNK_SIZE <= last
      requires Ring(mem, [first, second, last]) && Ring(mem, [second + HEADER_SIZE])
      requires Load(mem, second + USED_OFFSET) == 0
      modifies this`mem
      ensures Ring(mem, [first, second, last]) && Ring(mem, [second + HEADER_SIZE])
      ensures Load(mem, first + USED_OFFSET) == 1 && Load(mem, second + USED_OFFSET) == 0
      ensures Load(mem, last + USED_OFFSET) == 1
      ensures Next(mem, second) == last
    {
      ghost var m, s := mem, [first, second, last];
      assert LinkMemory.Linked(m, s, 1);
      mem := mem[first + USED_OFFSET := 1];
      mem := mem[last + USED_OFFSET := 1];
      RingFrame(m, mem, s);
      RingFrame(m, mem, [second + HEADER_SIZE]);
    }

    /** The one free chunk goes to the list of its class. */
    method ListFirst(n: nat, second: int, len: int)
      requires freeChunk.Length == NUM_SIZES && forall k :: 0 <= k < NUM_SIZES ==> freeChunk[k] == NULL
      requires CHUNK_SIZE < second && lastChunk + CHUNK_SIZE < WORD && firstChunk == second - CHUNK_SIZE
      requires len == lastChunk - second - HEADER_SIZE >= MIN_SIZE && n == Slot(len) < NUM_SIZES
      requires HeapSystem.GoodRange(second, lastChunk) && heap == HeapSystem.Fresh(second, lastChunk)
      requires Ring(mem, [firstChunk, second, lastChunk]) && Ring(mem, [second + HEADER_SIZE])
      requires Load(mem, firstChunk + USED_OFFSET) == 1 && Load(mem, second + USED_OFFSET) == 0
      requires Load(mem, lastChunk + USED_OFFSET) == 1
      modifies this`mem, freeChunk
      ensures Links(mem, freeChunk[..], heap) && UsedWords(mem, heap)
    {
      ghost var m, s := mem, [firstChunk, second, lastChunk];
      hide Ring, Apart, OnlyCells, HeapSystem.Fresh, HeapSystem.GoodRange;
      SecondApart(firstChunk, second, lastChunk);
      ListPush(n, second, []);
      assert [second] + [] == [second];
      FirstListed(m, mem, firstChunk, second, lastChunk);
      FreshLinks(mem, freeChunk[..], second, lastChunk);
    }

    static lemma SecondApart(first: int, second: int, last: int)
      requires first + CHUNK_SIZE <= second && second + CHUNK_SIZE <= last
      ensures FreeNodes([second]) == [second + HEADER_SIZE]
      ensures Apart([first, second, last], FreeNodes([second]))
      ensures Apart(FreeNodes([]), [second + HEADER_SIZE])
    {
    }

    static lemma FirstListed(m: Memory, m': Memory, first: int, second: int, last: int)
      requires first + CHUNK_SIZE == second && second + CHUNK_SIZE <= last
      requires Ring(m, [first, second, last]) && OnlyCells(m, m', FreeNodes([second]))
      ensures Ring(m', [first, second, last])
      ensures Load(m', first + USED_OFFSET) == Load(m, first + USED_OFFSET)
      ensures Load(m', second + USED_OFFSET) == Load(m, second + USED_OFFSET)
      ensures Load(m', last + USED_OFFSET) == Load(m, last + USED_OFFSET)
    {
      SecondApart(first, second, last);
      RingApart(m, m', [first, second, last], FreeNodes([second]));
      assert !IsCell(FreeNodes([second]), first + USED_OFFSET);
      assert !IsCell(FreeNodes([second]), second + USED_OFFSET);
      assert !IsCell(FreeNodes([second]), last + USED_OFFSET);
    }

    static lemma FreshLinks(m: Memory, heads: seq<int>, second: int, last: int)
      requires HeapSystem.GoodRange(second, last) && |heads| == NUM_SIZES
      requires Ring(m, [second - CHUNK_SIZE, second, last])
      requires Load(m, second - CHUNK_SIZE + USED_OFFSET) == 1 && Load(m, second + USED_OFFSET) == 0
      requires Load(m, last + USED_OFFSET) == 1
      requires forall k :: 0 <= k < NUM_SIZES ==>
                 if k == Slot(last - second - HEADER_SIZE) then BinLinked(m, heads[k], [second]) else heads[k] == NULL
      ensures Links(m, heads, HeapSystem.Fresh(second, last)) && UsedWords(m, HeapSystem.Fresh(second, last))
    {
      assert AllNodes(HeapSystem.Fresh(second, last)) == [second - CHUNK_SIZE, second, last];
    }

    // ----- circular lists -----------------------------------------------------------------------

    method ListInit(node: int)
      modifies this`mem
      ensures Ring(mem, [node]) && OnlyCells(old(mem), mem, [node])
    {
      mem := mem[node := node];
      mem := mem[node + 4 := node];
      assert [node][0] == node;
      assert Linked(mem, [node], 0);
    }

    method InsertBefore(current: int, node: int, ghost s: seq<int>, ghost k: nat)
      requires Ring(mem, s) && k < |s| && s[k] == current
      requires Ring(mem, [node]) && Apart(s, [node])
      modifies this`mem
      ensures Ring(mem, InsertAt(s, k, node)) && OnlyCells(old(mem), mem, InsertAt(s, k, node))
    {
      ghost var m := mem;
      assert Linked(m, s, k) && Linked(m, [node], 0) && [node][0] == node;
      var currentPrev := Prev(mem, current);
      var newPrev := Prev(mem, node);
      mem := mem[currentPrev := node];
      mem := mem[node + 4 := currentPrev];
      mem := mem[newPrev := current];
      mem := mem[current + 4 := node];
      LinkRing(m, mem, s, k, node);
    }

    method InsertAfter(current: int, node: int, ghost s: seq<int>, ghost k: nat)
      requires Ring(mem, s) && k < |s| && s[k] == current
      requires Ring(mem, [node]) && Apart(s, [node])
      modifies this`mem
      ensures Ring(mem, InsertAt(s, k + 1, node)) && OnlyCells(old(mem), mem, InsertAt(s, k + 1, node))
    {
      ghost var m := mem;
      assert Linked(m, s, k) && Linked(m, [node], 0) && [node][0] == node;
      var currentNext := Next(mem, current);
      var newPrev := Prev(mem, node);
      mem := mem[current := node];
      mem := mem[node + 4 := current];
      mem := mem[newPrev := currentNext];
      mem := mem[currentNext + 4 := newPrev];
      LinkRing(m, mem, s, k + 1, node);
    }

    method Remove(node: int, ghost s: seq<int>, ghost k: nat)
      requires Ring(mem, s) && k < |s| && s[k] == node
      modifies this`mem
      ensures Ring(mem, [node]) && OnlyCells(old(mem), mem, s)
      ensures |s| > 1 ==> Ring(mem, RemoveAt(s, k))
    {
      ghost var m := mem;
      assert Linked(m, s, k);
      ghost var b, a := Before(k, |s|), After(k, |s|);
      assert b != k ==> s[b] != node + 4 && s[b] + 4 != node;
      assert a != k ==> s[a] != node + 4 && s[a] + 4 != node;
      mem := mem[Prev(mem, node) := Next(mem, node)];
      mem := mem[Next(mem, node) + 4 := Prev(mem, node)];
      mem := mem[node := node];
      mem := mem[node + 4 := node];
      UnlinkRing(m, mem, s, k);
    }

    method Push(list: int, node: int, ghost s: seq<int>) returns (head: int)
      requires node != NULL && list == HeadOf(s) && (s != [] ==> list != NULL && Ring(mem, s))
      requires Ring(mem, [node]) && Apart(s, [node])
      modifies this`mem
      ensures head == node && Ring(mem, [node] + s) && OnlyCells(old(mem), mem, [node] + s)
    {
      if list != NULL {
        InsertBefore(list, node, s, 0);
        assert InsertAt(s, 0, node) == [node] + s;
      } else {
        assert [node] + s == [node];
      }
      head := node;
    }

    method Pop(list: int, ghost s: seq<int>) returns (top: int, head: int)
      requires s != [] && list == s[0] && Ring(mem, s)
      modifies this`mem
      ensures top == list && head == HeadOf(s[1..])
      ensures Ring(mem, [top]) && (|s| > 1 ==> Ring(mem, s[1..])) && OnlyCells(old(mem), mem, s)
    {
      top := list;
      assert Linked(mem, s, 0);
      var nextTop := Next(mem, top);
      Remove(top, s, 0);
      assert RemoveAt(s, 0) == s[1..];
      if top == nextTop {
        head := NULL;
      } else {
        head := nextTop;
      }
    }

    method RemoveFrom(list: int, node: int, ghost s: seq<int>, ghost k: nat) returns (head: int)
      requires k < |s| && list == s[0] && s[k] == node && Ring(mem, s)
      modifies this`mem
      ensures head == HeadOf(RemoveAt(s, k))
      ensures Ring(mem, [node]) && (|s| > 1 ==> Ring(mem, RemoveAt(s, k))) && OnlyCells(old(mem), mem, s)
    {
      if list == node {
        assert RemoveAt(s, 0) == s[1..];
        var _, rest := Pop(list, s);
        head := rest;
      } else {
        Remove(node, s, k);
        head := list;
      }
    }

    // ----- lists of chunks ----------------------------------------------------------------------

    static lemma NodesOfPush(chunk: int, bin: seq<int>)
      ensures FreeNodes([chunk] + bin) == [chunk + HEADER_SIZE] + FreeNodes(bin)
    {
    }

    static lemma NodesOfRemoval(bin: seq<int>, k: nat)
      requires k < |bin|
      ensures RemoveAt(FreeNodes(bin), k) == FreeNodes(RemoveAt(bin, k))
    {
    }

    /** LIST_PUSH on class n. */
    method ListPush(n: nat, chunk: int, ghost bin: seq<int>)
      requires n < freeChunk.Length && BinLinked(mem, freeChunk[n], bin)
      requires chunk > 0 && forall i :: 0 <= i < |bin| ==> bin[i] > 0
      requires Ring(mem, [chunk + HEADER_SIZE]) && Apart(FreeNodes(bin), [chunk + HEADER_SIZE])
      modifies this`mem, freeChunk
      ensures freeChunk[..] == old(freeChunk[..])[n := chunk]
      ensures BinLinked(mem, chunk, [chunk] + bin)
      ensures OnlyCells(old(mem), mem, FreeNodes([chunk] + bin))
    {
      NodesOfPush(chunk, bin);
      var list := if freeChunk[n] == NULL then NULL else freeChunk[n] + HEADER_SIZE;
      var head := Push(list, chunk + HEADER_SIZE, FreeNodes(bin));
      freeChunk[n] := head - HEADER_SIZE;
    }

    /** LIST_REMOVE_FROM on class n. */
    method ListRemoveFrom(n: nat, chunk: int, ghost bin: seq<int>, ghost k: nat)
      requires n < freeChunk.Length && BinLinked(mem, freeChunk[n], bin)
      requires k < |bin| && bin[k] == chunk && forall i :: 0 <= i < |bin| ==> bin[i] > 0
      modifies this`mem, freeChunk
      ensures freeChunk[..] == old(freeChunk[..])[n := HeadOf(RemoveAt(bin, k))]
      ensures BinLinked(mem, freeChunk[n], RemoveAt(bin, k))
      ensures Ring(mem, [chunk + HEADER_SIZE]) && OnlyCells(old(mem), mem, FreeNodes(bin))
    {
      NodesOfRemoval(bin, k);
      var head := RemoveFrom(freeChunk[n] + HEADER_SIZE, chunk + HEADER_SIZE, FreeNodes(bin), k);
      if head == NULL {
        freeChunk[n] := NULL;
      } else {
        freeChunk[n] := head - HEADER_SIZE;
      }
    }

    /** LIST_POP on class n. */
    method ListPop(n: nat, ghost bin: seq<int>) returns (chunk: int)
      requires n < freeChunk.Length && BinLinked(mem, freeChunk[n], bin)
      requires bin != [] && forall i :: 0 <= i < |bin| ==> bin[i] > 0
      modifies this`mem, freeChunk
      ensures chunk == bin[0]
      ensures freeChunk[..] == old(freeChunk[..])[n := HeadOf(bin[1..])]
      ensures BinLinked(mem, freeChunk[n], bin[1..])
      ensures Ring(mem, [chunk + HEADER_SIZE]) && OnlyCells(old(mem), mem, FreeNodes(bin))
    {
      assert FreeNodes(bin)[1..] == FreeNodes(bin[1..]);
      var node, head := Pop(freeChunk[n] + HEADER_SIZE, FreeNodes(bin));
      if head == NULL {
        freeChunk[n] := NULL;
      } else {
        freeChunk[n] := head - HEADER_SIZE;
      }
      chunk := node - HEADER_SIZE;
    }

    // ----- chunks -------------------------------------------------------------------------------

    method MemoryChunkSize(chunk: int) returns (size: int)
      ensures size == Next(mem, chunk) - chunk - HEADER_SIZE
    {
      var end := Next(mem, chunk);
      var start := chunk;
      size := end - start - HEADER_SIZE;
    }

    method MemoryChunkSlot(size: nat) returns (n: int)
      ensures n == Slot(size)
    {
      n := -1;
      var rest: nat := size;
      while rest > 0
        invariant n + 1 + Slot(rest) == Slot(size)
      {
        n := n + 1;
        rest := rest / 2;
      }
    }

    method MemoryChunkInit(chunk: int)
      modifies this`mem
      ensures Ring(mem, [chunk]) && Ring(mem, [chunk + HEADER_SIZE]) && Load(mem, chunk + USED_OFFSET) == 0
      ensures forall a :: !(chunk <= a < chunk + CHUNK_SIZE) ==> Load(mem, a) == Load(old(mem), a)
    {
      mem := mem[chunk := chunk];
      mem := mem[chunk + 4 := chunk];
      mem := mem[chunk + USED_OFFSET := 0];
      mem := mem[chunk + HEADER_SIZE := chunk + HEADER_SIZE];
      mem := mem[chunk + HEADER_SIZE + 4 := chunk + HEADER_SIZE];
      assert LinkMemory.Linked(mem, [chunk], 0);
      assert LinkMemory.Linked(mem, [chunk + HEADER_SIZE], 0);
    }

    // ----- the heap as a whole ------------------------------------------------------------------

    /** Links and counters stand for the abstract heap; the used bytes are stated apart. */
    ghost predicate Sound()
      reads this, freeChunk
    {
      && HeapModel.Well(heap)
      && Links(mem, freeChunk[..], heap)
      && firstChunk == heap.base - CHUNK_SIZE && lastChunk == heap.limit
      && memFree == Wrap(heap.memFree) && memUsed == Wrap(heap.memUsed) && memMeta == Wrap(heap.memMeta)
    }

    ghost predicate Valid()
      reads this, freeChunk
    {
      Sound() && HeapModel.Inv(heap) && UsedWords(mem, heap)
    }

    lemma SizeFromLinks(i: nat)
      requires Sound() && i < |heap.blocks|
      ensures Next(mem, heap.blocks[i].addr) - heap.blocks[i].addr - HEADER_SIZE == heap.blocks[i].size
      ensures IsChunk(heap, heap.blocks[i].addr)
    {
      var s := AllNodes(heap);
      assert s[i + 1] == heap.blocks[i].addr;
      assert LinkMemory.Linked(mem, s, i + 1);
      assert s[i + 2] == heap.blocks[i].End();
    }

    /** The 32-bit counters mem_meta, mem_free and mem_used each change by some amount. */
    method Account(meta: int, free: int, used: int)
      requires Sound()
      modifies this`heap, this`memMeta, this`memFree, this`memUsed
      ensures Sound()
      ensures heap == old(heap).(memMeta := old(heap).memMeta + meta,
                                 memFree := old(heap).memFree + free,
                                 memUsed := old(heap).memUsed + used)
      ensures forall a :: IsChunk(heap, a) <==> IsChunk(old(heap), a)
    {
      ghost var h := heap;
      WrapAdd(h.memMeta, meta);
      WrapAdd(h.memFree, free);
      WrapAdd(h.memUsed, used);
      hide Wrap, Links, HeapModel.Well;
      memMeta := Wrap(memMeta + meta);
      memFree := Wrap(memFree + free);
      memUsed := Wrap(memUsed + used);
      heap := h.(memMeta := h.memMeta + meta, memFree := h.memFree + free, memUsed := h.memUsed + used);
      SameLayout(mem, freeChunk[..], h, heap);
    }

    /** The first block of class n leaves its list. */
    method TakeFirst(n: nat, ghost i: nat) returns (chunk: int)
      requires Sound() && n < NUM_SIZES && heap.bins[n] != []
      requires i < |heap.blocks| && !heap.blocks[i].used && heap.blocks[i].addr == heap.bins[n][0]
      requires ClassOf(heap, i) == n
      modifies this`mem, this`heap, freeChunk
      ensures Sound() && heap == HeapModel.Detach(old(heap), i) && chunk == old(heap).blocks[i].addr
      ensures SameUsed(old(heap), old(mem), mem) && Ring(mem, [chunk + HEADER_SIZE])
    {
      ghost var m, heads := mem, freeChunk[..];
      ghost var bin := heap.bins[n];
      BinPositive(heap, n);
      assert BinLinked(mem, heads[n], bin);
      chunk := ListPop(n, bin);
      assert RemoveAt(bin, 0) == bin[1..];
      DetachLinks(heap, i, m, mem, heads, 0, freeChunk[n]);
      heap := HeapModel.Detach(heap, i);
    }

    /** A chunk with a single free node goes to the head of the list of its class. */
    method PushChunk(chunk: int, ghost i: nat)
      returns (len: int)
      requires Sound() && i < |heap.blocks| && heap.blocks[i].used && heap.blocks[i].addr == chunk
      requires Ring(mem, [chunk + HEADER_SIZE])
      modifies this`mem, this`heap, freeChunk
      ensures Sound() && heap == HeapModel.Attach(old(heap), i) && len == old(heap).blocks[i].size
      ensures SameUsed(old(heap), old(mem), mem)
    {
      hide Tiles, BinsAgree, SameUsed, Ring, HeapSpec.Slot;
      ghost var m, heads := mem, freeChunk[..];
      SizeFromLinks(i);
      HeapModel.BlockInWell(heap, i);
      len := MemoryChunkSize(chunk);
      var n := MemoryChunkSlot(len);
      PushedChunks(heap, i);
      assert BinLinked(mem, heads[n], heap.bins[n]);
      ListPush(n, chunk, heap.bins[n]);
      AttachLinks(heap, i, m, mem, heads);
      heap := HeapModel.Attach(heap, i);
    }

    /** A free chunk leaves the list of its class, wherever it stands in it. */
    method TakeChunk(chunk: int, ghost i: nat) returns (len: int)
      requires Sound() && i < |heap.blocks| && !heap.blocks[i].used && heap.blocks[i].addr == chunk
      modifies this`mem, this`heap, freeChunk
      ensures Sound() && heap == HeapModel.Detach(old(heap), i) && len == old(heap).blocks[i].size
      ensures SameUsed(old(heap), old(mem), mem) && Ring(mem, [chunk + HEADER_SIZE])
    {
      hide Tiles, BinsAgree, SameUsed, Ring, HeapSpec.Slot;
      ghost var m, heads := mem, freeChunk[..];
      SizeFromLinks(i);
      HeapModel.BlockInWell(heap, i);
      len := MemoryChunkSize(chunk);
      var n := MemoryChunkSlot(len);
      ghost var bin := heap.bins[n];
      ghost var k := ListedAt(heap, i, n);
      BinPositive(heap, n);
      assert BinLinked(mem, heads[n], bin);
      ListRemoveFrom(n, chunk, bin, k);
      DetachLinks(heap, i, m, mem, heads, k, freeChunk[n]);
      heap := HeapModel.Detach(heap, i);
    }

    method RemoveFree(chunk: int, ghost i: nat)
      requires Sound() && i < |heap.blocks| && !heap.blocks[i].used && heap.blocks[i].addr == chunk
      modifies this`mem, this`heap, this`memMeta, this`memFree, this`memUsed, freeChunk
      ensures Sound() && heap == HeapModel.RemoveFree(old(heap), i)
      ensures SameUsed(old(heap), old(mem), mem) && Ring(mem, [chunk + HEADER_SIZE])
    {
      hide HeapModel.Well;
      var len := TakeChunk(chunk, i);
      Account(0, -(len - HEADER_SIZE), 0);
    }

    method PushFree(chunk: int, ghost i: nat)
      requires Sound() && i < |heap.blocks| && heap.blocks[i].used && heap.blocks[i].addr == chunk
      requires Ring(mem, [chunk + HEADER_SIZE])
      modifies this`mem, this`heap, this`memMeta, this`memFree, this`memUsed, freeChunk
      ensures Sound() && heap == HeapModel.PushFree(old(heap), i)
      ensures SameUsed(old(heap), old(mem), mem)
    {
      hide HeapModel.Well;
      var len := PushChunk(chunk, i);
      Account(0, len - HEADER_SIZE, 0);
    }

    /** The right chunk leaves the address ring, so that the left one swallows it. */
    method Melt(right: int, ghost i: nat)
      requires Sound() && i + 1 < |heap.blocks| && heap.blocks[i].used && heap.blocks[i + 1].used
      requires heap.blocks[i + 1].addr == right
      modifies this`mem, this`heap, this`memMeta, this`memFree, this`memUsed
      ensures Sound() && heap == HeapModel.Absorb(old(heap), i)
      ensures SameUsed(old(heap), old(mem), mem)
      ensures forall x :: IsChunk(old(heap), x) && old(Ring(mem, [x + HEADER_SIZE])) ==> Ring(mem, [x + HEADER_SIZE])
    {
      ghost var h := heap;
      Drop(right, i);
      Account(-HEADER_SIZE, HEADER_SIZE, 0);
      heap := HeapModel.Absorb(h, i);
    }

    method Drop(right: int, ghost i: nat)
      requires Sound() && i + 1 < |heap.blocks| && heap.blocks[i].used && heap.blocks[i + 1].used
      requires heap.blocks[i + 1].addr == right
      modifies this`mem, this`heap
      ensures Sound()
      ensures heap == HeapModel.Absorb(old(heap), i).(memMeta := old(heap).memMeta, memFree := old(heap).memFree)
      ensures SameUsed(old(heap), old(mem), mem)
      ensures forall x :: IsChunk(old(heap), x) && old(Ring(mem, [x + HEADER_SIZE])) ==> Ring(mem, [x + HEADER_SIZE])
    {
      hide SameUsed, HeapModel.Well, IsChunk, OnlyCells;
      ghost var m, heads, h, r := mem, freeChunk[..], heap, HeapModel.Absorb(heap, i);
      MergeNodes(h, r, i);
      Remove(right, AllNodes(h), i + 2);
      AbsorbLinks(h, i, m, mem, heads);
      forall x | IsChunk(h, x) && Ring(m, [x + HEADER_SIZE]) ensures Ring(mem, [x + HEADER_SIZE]) {
        SingleSurvives(h, m, mem, x);
      }
      heap := r.(memMeta := h.memMeta, memFree := h.memFree);
      SameLayout(mem, heads, r, heap);
    }

    /** A new chunk begins size bytes into the data of chunk i. */
    method SplitChunk(chunk: int, size: int, ghost i: nat) returns (chunk2: int)
      requires Sound() && i < |heap.blocks| && heap.blocks[i].used && heap.blocks[i].addr == chunk
      requires size >= MIN_SIZE && size % ALIGN == 0 && size + CHUNK_SIZE <= heap.blocks[i].size
      modifies this`mem, this`heap
      ensures Sound() && heap == HeapModel.Carve(old(heap), i, size)
      ensures chunk2 == chunk + HEADER_SIZE + size && IsChunk(heap, chunk2)
      ensures SameUsed(old(heap), old(mem), mem) && Load(mem, chunk2 + USED_OFFSET) == 0
      ensures Ring(mem, [chunk2 + HEADER_SIZE])
    {
      ghost var m, heads, h := mem, freeChunk[..], heap;
      ghost var r := HeapModel.Carve(h, i, size);
      chunk2 := chunk + HEADER_SIZE + size;
      MemoryChunkInit(chunk2);
      ghost var m1 := mem;
      NewChunkFrame(h, r, i, size, m, m1, heads);
      SplitNodes(h, r, i, size);
      InsertAfter(chunk, chunk2, AllNodes(h), i + 1);
      CarveLinks(h, r, i, chunk2, m1, mem, heads);
      heap := r;
    }

    // ----- kmalloc ------------------------------------------------------------------------------

    /** The first non-empty class from n on, NUM_SIZES when there is none. */
    method FindClass(n: nat) returns (m: nat)
      requires Sound()
      ensures m == HeapModel.FirstBin(heap.bins, n)
    {
      m := n;
      if m >= NUM_SIZES {
        return NUM_SIZES;
      }
      while freeChunk[m] == NULL
        invariant n <= m < NUM_SIZES
        invariant HeapModel.FirstBin(heap.bins, m) == HeapModel.FirstBin(heap.bins, n)
        decreases NUM_SIZES - m
      {
        assert BinLinked(mem, freeChunk[..][m], heap.bins[m]);
        BinPositive(heap, m);
        m := m + 1;
        if m >= NUM_SIZES {
          return NUM_SIZES;
        }
      }
      assert BinLinked(mem, freeChunk[..][m], heap.bins[m]);
    }

    /** The remainder of a chosen chunk becomes a free chunk of its own. */
    method SplitOff(chunk: int, size: int, ghost i: nat) returns (len: int)
      requires Sound() && i < |heap.blocks| && heap.blocks[i].used && heap.blocks[i].addr == chunk
      requires size >= MIN_SIZE && size % ALIGN == 0 && size + CHUNK_SIZE <= heap.blocks[i].size
      modifies this`mem, this`heap, freeChunk
      ensures Sound() && heap == HeapModel.Attach(HeapModel.Carve(old(heap), i, size), i + 1)
      ensures len == old(heap).blocks[i].size - size - HEADER_SIZE
      ensures SameUsed(old(heap), old(mem), mem) && Load(mem, chunk + HEADER_SIZE + size + USED_OFFSET) == 0
      ensures IsChunk(heap, chunk) && forall a :: IsChunk(old(heap), a) ==> IsChunk(heap, a)
    {
      hide Links, HeapModel.Well, Tiles, BinsAgree, SameUsed, AllNodes, Ring;
      ghost var h, m := heap, mem;
      var chunk2 := SplitChunk(chunk, size, i);
      ghost var r, m1 := heap, mem;
      assert r.blocks[i + 1] == Block(chunk2, h.blocks[i].size - size - HEADER_SIZE, true);
      assert r.blocks[i].addr == chunk;
      len := PushChunk(chunk2, i + 1);
      SplitNodes(h, r, i, size);
      InsertedChunks(h, r, i + 2, chunk2);
      MarkNodes(r, heap, i + 1, false);
      ChunkCases(r, chunk);
      SameUsedChain(h, r, m, m1, mem);
      SameUsedAt(r, m1, mem, chunk2);
    }

    /** Cuts the chosen chunk to size and accounts for it. */
    method CutToSize(chunk: int, size: int, ghost i: nat)
      requires Sound() && i < |heap.blocks| && heap.blocks[i].used && heap.blocks[i].addr == chunk
      requires MIN_SIZE <= size <= heap.blocks[i].size && size % ALIGN == 0
      modifies this`mem, this`heap, this`memMeta, this`memFree, this`memUsed, freeChunk
      ensures Sound()
      ensures var h, size2 := old(heap), old(heap).blocks[i].size;
        if size + CHUNK_SIZE <= size2 then
          heap == HeapModel.Attach(HeapModel.Carve(h, i, size), i + 1).(
                    memMeta := h.memMeta + HEADER_SIZE,
                    memFree := h.memFree + (size2 - size - HEADER_SIZE - HEADER_SIZE) - size2,
                    memUsed := h.memUsed + (size2 - (size2 - size - HEADER_SIZE) - HEADER_SIZE))
          && Load(mem, chunk + HEADER_SIZE + size + USED_OFFSET) == 0
        else heap == h.(memFree := h.memFree - size2, memUsed := h.memUsed + (size2 - HEADER_SIZE))
      ensures SameUsed(old(heap), old(mem), mem) && IsChunk(heap, chunk)
      ensures forall a :: IsChunk(old(heap), a) ==> IsChunk(heap, a)
    {
      hide Links, HeapModel.Well, Tiles, BinsAgree, SameUsed, AllNodes, Ring, IsChunk;
      SizeFromLinks(i);
      SameUsedSelf(heap, mem);
      var size2 := MemoryChunkSize(chunk);
      if size + CHUNK_SIZE <= size2 {
        var len := SplitOff(chunk, size, i);
        Account(HEADER_SIZE, len - HEADER_SIZE, 0);
        Account(0, -size2, size2 - len - HEADER_SIZE);
      } else {
        Account(0, -size2, size2 - HEADER_SIZE);
      }
    }

    /** Takes the first chunk of class n and cuts it to size. */
    method Grant(n: nat, size: int, ghost request: nat, ghost i: nat) returns (chunk: int)
      requires Valid() && request < WORD && size == RoundedSize(request)
      requires n == HeapModel.FirstBin(heap.bins, HeapModel.StartClass(request)) < NUM_SIZES
      requires i == HeapModel.ChosenIndex(heap, request)
      modifies this`mem, this`heap, this`memFree, this`memUsed, this`memMeta, freeChunk
      ensures Sound() && heap == HeapModel.Malloc(old(heap), request).0
      ensures chunk == old(heap).blocks[i].addr && IsChunk(heap, chunk)
      ensures SameUsed(old(heap), old(mem), mem) && forall a :: IsChunk(old(heap), a) ==> IsChunk(heap, a)
      ensures size + CHUNK_SIZE <= old(heap).blocks[i].size ==>
                Load(mem, chunk + HEADER_SIZE + size + USED_OFFSET) == 0
    {
      hide HeapModel.Malloc, Links, HeapModel.Well, UsedWords, HeapModel.Inv, Ring, IsChunk, SameUsed, Tiles, BinsAgree;
      ghost var h, m := heap, mem;
      HeapTheorems.MallocSteps(h, request);
      HeapModel.ChosenIsLargeEnough(h, request);
      chunk := TakeFirst(n, i);
      ghost var d, m1 := heap, mem;
      MarkNodes(h, d, i, true);
      CutToSize(chunk, size, i);
      SameUsedChain(h, d, m, m1, mem);
    }

    /** Grants the chunk and marks it used. */
    method GrantUsed(n: nat, size: int, ghost request: nat, ghost i: nat) returns (chunk: int)
      requires Valid() && request < WORD && size == RoundedSize(request)
      requires n == HeapModel.FirstBin(heap.bins, HeapModel.StartClass(request)) < NUM_SIZES
      requires i == HeapModel.ChosenIndex(heap, request)
      modifies this`mem, this`heap, this`memFree, this`memUsed, this`memMeta, freeChunk
      ensures Valid() && heap == HeapModel.Malloc(old(heap), request).0
      ensures chunk == old(heap).blocks[i].addr
    {
      ghost var h, m := heap, mem;
      hide HeapModel.Malloc, Links, Tiles, BinsAgree, NoFreeNeighbours, UsedWords, IsChunk, HeapTheorems.Granted;
      hide RoundedSize;
      HeapTheorems.MallocKeepsInv(h, request);
      HeapTheorems.MallocLayout(h, request);
      chunk := Grant(n, size, request, i);
      ghost var m1 := mem;
      mem := mem[chunk + USED_OFFSET := 1];
      UsedWriteFrame(heap, m1, mem, freeChunk[..], chunk);
      assert OthersKept(h, i, i, m, mem);
      UsedAfterGrant(h, heap, i, request, m, mem);
    }

    method RoundUp(request: nat) returns (size: nat)
      ensures size == RoundedSize(request) && size >= MIN_SIZE
    {
      size := Wrap(request + ALIGN - 1);
      size := size - size % ALIGN;
      if size < MIN_SIZE {
        size := MIN_SIZE;
      }
    }

    method SearchClass(size: nat) returns (n: nat)
      requires Sound() && size > 1
      ensures n == HeapModel.FirstBin(heap.bins, ClassFor(size))
    {
      SlotBounds(size - 1);
      var slot := MemoryChunkSlot(size - 1);
      n := FindClass(slot + 1);
    }

    /** Allocates a block, or answers NULL. */
    method Kmalloc(request: nat) returns (ptr: int)
      requires Valid() && request < WORD
      modifies this`mem, this`heap, this`memFree, this`memUsed, this`memMeta, freeChunk
      ensures Valid() && (heap, ptr) == HeapModel.Malloc(old(heap), request)
    {
      hide HeapModel.Malloc, HeapModel.Well, Links, Tiles, BinsAgree, NoFreeNeighbours, UsedWords;
      ghost var h := heap;
      HeapTheorems.SuccessMeansChosen(h, request);
      var size := RoundUp(request);
      var n := SearchClass(size);
      if n >= NUM_SIZES {
        return NULL;
      }
      var chunk := GrantUsed(n, size, request, HeapModel.ChosenIndex(h, request));
      HeapTheorems.MallocLayout(h, request);
      ptr := chunk + HEADER_SIZE;
    }

    // ----- kfree --------------------------------------------------------------------------------

    /** What the neighbours' used bytes say about block i. */
    lemma Neighbours(i: nat)
      requires Sound() && UsedWords(mem, heap) && i < |heap.blocks|
      ensures var a := heap.blocks[i].addr;
        && (i + 1 < |heap.blocks| ==> Next(mem, a) == heap.blocks[i + 1].addr)
        && Prev(mem, a) == (if i > 0 then heap.blocks[i - 1].addr else heap.base - CHUNK_SIZE)
        && (Load(mem, Next(mem, a) + USED_OFFSET) == 0 <==> HeapTheorems.MeltTo(heap.blocks, i) == i + 1)
        && (Load(mem, Prev(mem, a) + USED_OFFSET) == 0 <==> HeapTheorems.MeltFrom(heap.blocks, i) == i - 1)
    {
      var s := AllNodes(heap);
      assert LinkMemory.Linked(mem, s, i + 1);
      assert s[i + 1] == heap.blocks[i].addr;
      if i + 1 < |heap.blocks| { assert s[i + 2] == heap.blocks[i + 1].addr; } else { assert s[i + 2] == heap.limit; }
      if i > 0 { assert s[i] == heap.blocks[i - 1].addr; } else { assert s[0] == heap.base - CHUNK_SIZE; }
    }

    /** A free right neighbour leaves its list and melts into block i. */
    method MeltNext(next: int, ghost i: nat)
      requires Sound() && i + 1 < |heap.blocks| && heap.blocks[i].used && !heap.blocks[i + 1].used
      requires heap.blocks[i + 1].addr == next
      modifies this`mem, this`heap, this`memMeta, this`memFree, this`memUsed, freeChunk
      ensures Sound() && heap == HeapModel.FreeWithNext(old(heap), i)
      ensures SameUsed(old(heap), old(mem), mem)
    {
      ghost var h, m := heap, mem;
      hide Links, HeapModel.Well, Tiles, BinsAgree, AllNodes, IsChunk, SameUsed, Ring;
      RemoveFree(next, i + 1);
      ghost var d, m1 := heap, mem;
      Melt(next, i);
      MarkNodes(h, d, i + 1, true);
      SameUsedChain(h, d, m, m1, mem);
    }

    /** Block i melts into its free left neighbour, which goes back to the list of its new class. */
    method MeltPrev(prev: int, chunk: int, ghost i: nat)
      requires Sound() && 0 < i < |heap.blocks| && heap.blocks[i].used && !heap.blocks[i - 1].used
      requires heap.blocks[i - 1].addr == prev && heap.blocks[i].addr == chunk
      modifies this`mem, this`heap, this`memMeta, this`memFree, this`memUsed, freeChunk
      ensures Sound() && heap == HeapModel.FreeWithPrev(old(heap), i)
      ensures forall a :: IsChunk(old(heap), a) && a != chunk ==>
                Load(mem, a + USED_OFFSET) == old(Load(mem, a + USED_OFFSET))
    {
      ghost var h, m := heap, mem;
      hide Links, HeapModel.Well, Tiles, BinsAgree, AllNodes, Ring;
      RemoveFree(prev, i - 1);
      ghost var d, m1 := heap, mem;
      MarkNodes(h, d, i - 1, true);
      ChunkCases(d, prev);
      Melt(chunk, i - 1);
      ghost var r, m2 := heap, mem;
      PushFree(prev, i - 1);
      MergedChunks(d, r, i - 1, chunk);
    }

    /** The chunk itself becomes free. */
    method FreeAlone(chunk: int, ghost i: nat)
      requires Sound() && i < |heap.blocks| && heap.blocks[i].used && heap.blocks[i].addr == chunk
      requires HeapTheorems.MeltFrom(heap.blocks, i) == i
      modifies this`mem, this`heap, this`memMeta, this`memFree, this`memUsed, freeChunk
      ensures Sound() && heap == HeapModel.FreeWithPrev(old(heap), i)
      ensures Load(mem, chunk + USED_OFFSET) == 0
      ensures forall a :: IsChunk(old(heap), a) && a != chunk ==>
                Load(mem, a + USED_OFFSET) == old(Load(mem, a + USED_OFFSET))
    {
      ghost var h, m := heap, mem;
      ChunkCases(h, chunk);
      mem := mem[chunk + USED_OFFSET := 0];
      UsedWriteFrame(h, m, mem, freeChunk[..], chunk);
      ghost var m1 := mem;
      ListInit(chunk + HEADER_SIZE);
      LooseNodeFrame(h, i, m1, mem, freeChunk[..]);
      ghost var m2 := mem;
      PushFree(chunk, i);
      SameUsedAt(h, m2, mem, chunk);
    }

    /** Merges with the right neighbour if that is free. */
    method ReleaseNext(next: int, ghost i: nat)
      requires Sound() && i < |heap.blocks| && heap.blocks[i].used
      requires i + 1 < |heap.blocks| ==> next == heap.blocks[i + 1].addr
      requires Load(mem, next + USED_OFFSET) == 0 <==> HeapTheorems.MeltTo(heap.blocks, i) == i + 1
      modifies this`mem, this`heap, this`memMeta, this`memFree, this`memUsed, freeChunk
      ensures Sound() && heap == HeapModel.FreeWithNext(old(heap), i)
      ensures SameUsed(old(heap), old(mem), mem)
    {
      hide Links, HeapModel.Well, Tiles, BinsAgree, IsChunk, SameUsed;
      SameUsedSelf(heap, mem);
      if Load(mem, next + USED_OFFSET) == 0 {
        MeltNext(next, i);
      }
    }

    /** Merges with the left neighbour if that is free, and lists what comes out as free. */
    method ReleasePrev(prev: int, chunk: int, ghost i: nat)
      requires Sound() && i < |heap.blocks| && heap.blocks[i].used && heap.blocks[i].addr == chunk
      requires i > 0 ==> prev == heap.blocks[i - 1].addr
      requires Load(mem, prev + USED_OFFSET) == 0 <==> HeapTheorems.MeltFrom(heap.blocks, i) == i - 1
      modifies this`mem, this`heap, this`memMeta, this`memFree, this`memUsed, freeChunk
      ensures Sound() && heap == HeapModel.FreeWithPrev(old(heap), i)
      ensures HeapTheorems.MeltFrom(old(heap).blocks, i) == i ==> Load(mem, chunk + USED_OFFSET) == 0
      ensures forall a :: IsChunk(old(heap), a) && a != chunk ==>
                Load(mem, a + USED_OFFSET) == old(Load(mem, a + USED_OFFSET))
    {
      hide Links, HeapModel.Well, Tiles, BinsAgree, IsChunk, SameUsed, HeapModel.FreeWithPrev;
      if Load(mem, prev + USED_OFFSET) == 0 {
        MeltPrev(prev, chunk, i);
      } else {
        FreeAlone(chunk, i);
      }
    }

    /** Merges block i with its free neighbours and lists the outcome as free. */
    method Release(chunk: int, ghost i: nat)
      requires Sound() && UsedWords(mem, heap)
      requires i < |heap.blocks| && heap.blocks[i].used && heap.blocks[i].addr == chunk
      modifies this`mem, this`heap, this`memFree, this`memUsed, this`memMeta, freeChunk
      ensures Sound() && heap == HeapModel.FreeWithPrev(HeapModel.FreeWithNext(old(heap), i), i)
      ensures OthersKept(old(heap), i, HeapTheorems.MeltTo(old(heap).blocks, i), old(mem), mem)
      ensures HeapTheorems.MeltFrom(old(heap).blocks, i) == i ==> Load(mem, chunk + USED_OFFSET) == 0
    {
      ghost var h, m := heap, mem;
      Neighbours(i);
      hide Links, Tiles, BinsAgree, IsChunk, UsedWords, HeapModel.FreeWithPrev, HeapModel.FreeWithNext, HeapModel.Well;
      var next := Next(mem, chunk);
      var prev := Prev(mem, chunk);
      ReleaseNext(next, i);
      ghost var r, m1 := heap, mem;
      PrevKept(h, r, i, m, m1, prev);
      ReleasePrev(prev, chunk, i);
      KeptChain(h, h, i, m, m1, mem);
    }

    /** Takes block i off the used bytes and releases it. */
    method ReleaseBlock(chunk: int, ghost i: nat)
      requires Sound() && UsedWords(mem, heap)
      requires i < |heap.blocks| && heap.blocks[i].used && heap.blocks[i].addr == chunk
      modifies this`mem, this`heap, this`memFree, this`memUsed, this`memMeta, freeChunk
      ensures Sound()
      ensures var h0 := old(heap).(memUsed := old(heap).memUsed - old(heap).blocks[i].size);
        HeapModel.Well(h0) && heap == HeapModel.FreeWithPrev(HeapModel.FreeWithNext(h0, i), i)
      ensures OthersKept(old(heap), i, HeapTheorems.MeltTo(old(heap).blocks, i), old(mem), mem)
      ensures HeapTheorems.MeltFrom(old(heap).blocks, i) == i ==> Load(mem, chunk + USED_OFFSET) == 0
    {
      hide Links, Tiles, BinsAgree, IsChunk, UsedWords, HeapModel.FreeWithPrev, HeapModel.FreeWithNext;
      SizeFromLinks(i);
      ghost var h := heap;
      var size := MemoryChunkSize(chunk);
      Account(0, 0, -size);
      SameLayout(mem, freeChunk[..], h, heap);
      Release(chunk, i);
    }

    /** Releases a live block. */
    method Kfree(ptr: int)
      requires Valid() && HeapModel.Live(heap, ptr)
      modifies this`mem, this`heap, this`memFree, this`memUsed, this`memMeta, freeChunk
      ensures Valid() && heap == HeapModel.Free(old(heap), ptr)
    {
      ghost var h, m := heap, mem;
      ghost var i := IndexOf(h.blocks, ptr - HEADER_SIZE);
      hide Links, Tiles, BinsAgree, IsChunk, UsedWords, HeapModel.FreeWithPrev, HeapModel.FreeWithNext;
      hide HeapTheorems.Released, NoFreeNeighbours, OthersKept;
      HeapTheorems.FreeSteps(h, ptr, i);
      HeapTheorems.FreeKeepsInv(h, ptr);
      HeapTheorems.FreeLayout(h, ptr);
      hide HeapModel.Free;
      ReleaseBlock(ptr - HEADER_SIZE, i);
      UsedAfterRelease(h, heap, i, m, mem);
    }

    // ----- the owner of a block -----------------------------------------------------------------

    /** Whatever its owner stores in the data of a live block, the heap is not touched by it. */
    method StoreWord(ptr: int, offset: nat, value: int)
      requires Valid() && HeapModel.Live(heap, ptr)
      requires offset % ALIGN == 0 && offset + ALIGN <= HeapTheorems.LiveBlock(heap, ptr).size
      modifies this`mem
      ensures Valid() && Load(mem, ptr + offset) == value
    {
      ghost var m := mem;
      mem := mem[ptr + offset := value];
      DataWriteFrame(heap, m, mem, freeChunk[..], ptr + offset, IndexOf(heap.blocks, ptr - HEADER_SIZE));
    }
  }
}
