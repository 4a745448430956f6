/** The cells that queue_init gets from kmalloc, and whether they are enough for the queue. */
module QueueMemory {
  import opened HeapSpec
  import opened HeapModel
  import opened HeapTheorems
  import MessageQueue

  const CELL := 4

  /** queue_init's request, in 32 bits. */
  function Request(depth: nat): nat {
    Wrap(CELL * depth)
  }

  /** The block granted is enough for every run of the queue exactly if it has a cell more than asked for. */
  lemma GrantSufficesIff(h: Heap, depth: nat)
    requires Inv(h) && Malloc(h, Request(depth)).1 != 0
    ensures var (r, ptr) := Malloc(h, Request(depth));
      && Live(r, ptr)
      && (MessageQueue.Fits(depth, LiveBlock(r, ptr).size / CELL) <==> depth == 0 || CELL * (depth + 1) <= LiveBlock(r, ptr).size)
  {
    hide Well, NoFreeNeighbours, Malloc, MessageQueue.Fits, Live, LiveBlock;
    GrantedBlock(h, Request(depth));
    var (r, ptr) := Malloc(h, Request(depth));
    MessageQueue.AllocationSufficesIff(depth, LiveBlock(r, ptr).size / CELL);
  }

  /** For requests that do not wrap, in terms of the free block that is chosen: it must be larger than
      asked for, and yet too small to be split. */
  lemma ChosenSufficesIff(h: Heap, depth: nat)
    requires Inv(h) && CELL * depth < WORD && Malloc(h, CELL * depth).1 != 0
    ensures FirstBin(h.bins, StartClass(CELL * depth)) < NUM_SIZES
    ensures var (r, ptr) := Malloc(h, CELL * depth);
      var chosen := h.blocks[ChosenIndex(h, CELL * depth)];
      && Live(r, ptr)
      && (MessageQueue.Fits(depth, LiveBlock(r, ptr).size / CELL) <==>
            depth <= 1 || CELL * depth < chosen.size < CELL * depth + CHUNK_SIZE)
  {
    hide Well, NoFreeNeighbours, Malloc, MessageQueue.Fits, Live, LiveBlock, RoundedSize, ClassFor, FirstBin;
    GrantedBlock(h, CELL * depth);
    ChosenIsLargeEnough(h, CELL * depth);
    var (r, ptr) := Malloc(h, CELL * depth);
    MessageQueue.AllocationSufficesIff(depth, LiveBlock(r, ptr).size / CELL);
    BlockInWell(h, ChosenIndex(h, CELL * depth));
    RoundedCells(depth);
  }

  lemma RoundedCells(depth: nat)
    requires CELL * depth < WORD
    ensures RoundedSize(CELL * depth) == if depth <= 1 then MIN_SIZE else CELL * depth
  {
  }
}
