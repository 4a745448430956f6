/** Two-level 32-bit paging: the kernel's directory and tables, walked as the processor walks them
    (Intel SDM volume 3A, section 4.3). */
module Paging {
  import opened Basics

  const PAGE := 0x1000
  const PAGES := 0x10_0000
  const LAST_PAGE := 0xFFFF_F000

  const PRESENT := 1
  const READ_WRITE := 2

  datatype Code = NoError | MappingAlreadyExists | MemoryNotMapped | NoMoreFreeMemory

  /** The frame of a page, the flags of its table entry, and the access that both levels leave. */
  datatype Mapping = Mapping(frame: nat, flags: nat, writable: bool, user: bool)

  /** The pages that are mapped. */
  type Translation = map<nat, Mapping>

  function Or(a: nat, b: nat): nat
    decreases a + b
  {
    if a == 0 then b
    else if b == 0 then a
    else 2 * Or(a / 2, b / 2) + (if a % 2 == 1 || b % 2 == 1 then 1 else 0)
  }

  predicate Bit(x: nat, mask: nat)
    requires mask > 0
  {
    x / mask % 2 == 1
  }

  // ----- what the calls mean ----------------------------------------------------------------------

  /** The mapping of page number k of a range. Flags above bit 11 get into the frame. */
  function MappingFor(phys: nat, flags: nat, k: nat): Mapping {
    Mapping(Or((phys / PAGE + k) % PAGES, flags / PAGE), flags % PAGE - flags % 2 + PRESENT, Bit(flags, 2), false)
  }

  function Range(first: nat, n: nat): (s: set<nat>)
    ensures forall p: nat :: p in s <==> first <= p < first + n
  {
    if n == 0 then {} else Range(first, n - 1) + {first + n - 1}
  }

  function MapPages(m: Translation, first: nat, n: nat, phys: nat, flags: nat): Translation {
    map p: nat | p in m.Keys + Range(first, n) ::
      if first <= p < first + n then MappingFor(phys, flags, p - first) else m[p]
  }

  function UnmapPages(m: Translation, first: nat, n: nat): Translation {
    map p: nat | p in m && !(first <= p < first + n) :: m[p]
  }

  function FirstPage(virt: nat): nat {
    virt / PAGE
  }

  /** The page after the range; the end of the range is a 32-bit sum. */
  function PageAfter(virt: nat, size: nat): (after: nat)
    ensures after >= FirstPage(virt)
  {
    var after := ((virt + size) % UINT32 + PAGE - 1) / PAGE;
    if after < FirstPage(virt) then FirstPage(virt) else after
  }

  function FirstMapped(m: Translation, p: nat, after: nat): (q: nat)
    requires p <= after
    ensures p <= q <= after && (q < after ==> q in m) && forall i :: p <= i < q ==> i !in m
    decreases after - p
  {
    if p == after || p in m then p else FirstMapped(m, p + 1, after)
  }

  function FirstUnmapped(m: Translation, p: nat, after: nat): (q: nat)
    requires p <= after
    ensures p <= q <= after && (q < after ==> q !in m) && forall i :: p <= i < q ==> i in m
    decreases after - p
  {
    if p == after || p !in m then p else FirstUnmapped(m, p + 1, after)
  }

  /** The page before which kernel_mmap stops. */
  function StopPage(m: Translation, virt: nat, size: nat, remap: bool): (stop: nat)
    ensures FirstPage(virt) <= stop <= PageAfter(virt, size)
  {
    if remap then PageAfter(virt, size) else FirstMapped(m, FirstPage(virt), PageAfter(virt, size))
  }

  function Mmap(m: Translation, virt: nat, phys: nat, size: nat, flags: nat, remap: bool): (Translation, Code) {
    var stop := StopPage(m, virt, size, remap);
    (MapPages(m, FirstPage(virt), stop - FirstPage(virt), phys, flags),
     if stop == PageAfter(virt, size) then NoError else MappingAlreadyExists)
  }

  function Munmap(m: Translation, virt: nat, size: nat): (Translation, Code) {
    var first, after := FirstPage(virt), PageAfter(virt, size);
    var stop := FirstUnmapped(m, first, after);
    (UnmapPages(m, first, stop - first), if stop == after then NoError else MemoryNotMapped)
  }

  // ----- bits -------------------------------------------------------------------------------------

  /** The bits of b come through below the ones of an aligned a. */
  lemma OrEven(a: nat, b: nat)
    requires a % 2 == 0
    ensures Or(a, b) == 2 * Or(a / 2, b / 2) + b % 2
  {
    assert Or(a / 2, 0) == a / 2 && Or(0, b / 2) == b / 2;
  }

  lemma OrAligned4(a: nat, b: nat)
    requires a % 4 == 0
    ensures Or(a, b) == 4 * Or(a / 4, b / 4) + b % 4
  {
    hide Or;
    Quarter(a, a / 4, a % 4);
    Quarter(b, b / 4, b % 4);
    OrEven(a, b);
    OrEven(a / 2, b / 2);
  }

  lemma Quarter(x: nat, y: nat, u: nat)
    requires x == 4 * y + u && u < 4
    ensures x / 2 == 2 * y + u / 2 && x / 2 / 2 == y && x % 2 == u % 2 && x / 2 % 2 == u / 2
  {
  }

  lemma OrAligned16(a: nat, b: nat)
    requires a % 16 == 0
    ensures Or(a, b) == 16 * Or(a / 16, b / 16) + b % 16
  {
    hide Or;
    OrAligned4(a, b);
    OrAligned4(a / 4, b / 4);
  }

  lemma OrAligned(a: nat, b: nat)
    requires a % PAGE == 0
    ensures Or(a, b) == PAGE * Or(a / PAGE, b / PAGE) + b % PAGE
  {
    hide Or;
    OrAligned16(a, b);
    OrAligned16(a / 16, b / 16);
    OrAligned16(a / 256, b / 256);
    assert a / 16 / 16 == a / 256 && a / 256 / 16 == a / PAGE;
    assert b / 16 / 16 == b / 256 && b / 256 / 16 == b / PAGE;
  }

  /** A table entry for a frame and flags, present in any case. */
  function EntryFor(frameAddr: nat, flags: nat): nat {
    Or(Or(frameAddr, flags), PRESENT)
  }

  lemma EntryIs(frameAddr: nat, flags: nat)
    requires frameAddr % PAGE == 0
    ensures var e := EntryFor(frameAddr, flags);
      e / PAGE == Or(frameAddr / PAGE, flags / PAGE) && e % PAGE == flags % PAGE - flags % 2 + PRESENT
  {
    OrAligned(frameAddr, flags);
    var x := Or(frameAddr, flags);
    assert Or(x, PRESENT) == x - x % 2 + 1 by {
      assert Or(x / 2, 0) == x / 2;
    }
  }

  // ----- the directory and the tables -------------------------------------------------------------

  datatype MemRange = MemRange(base: nat, limit: nat, available: bool)

  /** The tables, of 4 MB each, that hold everything below the user memory. */
  function KernelTables(userMemStart: nat): (count: nat)
    requires userMemStart < UINT32
    ensures count <= 1024 && userMemStart <= count * 1024 * PAGE + 1023
    ensures count > 0 ==> (count - 1) * 1024 * PAGE + 1023 < userMemStart
  {
    var kilobytes := userMemStart / 1024;
    (kilobytes + PAGE - 1) / PAGE
  }

  /** The first range that is available and does not start at 0, or the number of ranges if there is none. */
  method FindRange(memoryMap: seq<MemRange>) returns (i: nat)
    ensures i <= |memoryMap|
    ensures i < |memoryMap| ==> memoryMap[i].available && memoryMap[i].base != 0
    ensures forall j :: 0 <= j < i ==> !memoryMap[j].available || memoryMap[j].base == 0
  {
    i := 0;
    while i < |memoryMap| && (memoryMap[i].base == 0 || !memoryMap[i].available)
      invariant i <= |memoryMap|
      invariant forall j :: 0 <= j < i ==> !memoryMap[j].available || memoryMap[j].base == 0
    {
      i := i + 1;
    }
  }

  method CountTables(userMemStart: nat) returns (count: nat)
    requires userMemStart < UINT32
    ensures count == KernelTables(userMemStart)
  {
    count := userMemStart / 1024 / PAGE;
    if userMemStart / 1024 % PAGE != 0 {
      count := count + 1;
    }
  }

  /** Every page of the kernel is mapped to itself, but for page 0, which catches null pointers. */
  function KernelIdentity(count: nat): Translation {
    map p: nat | p in Range(0, count * 1024) && p != 0 :: Mapping(p, READ_WRITE + PRESENT, true, false)
  }

  lemma IdentitySeen(base: nat, p: nat)
    ensures Seen(READ_WRITE, p) == [] && Seen((base + Row(p)) * PAGE + 3, READ_WRITE) == []
    ensures Seen((base + Row(p)) * PAGE + 3, (Row(p) * 1024 + Col(p)) * PAGE + 3) == [Mapping(p, 3, true, false)]
  {
    hide Row, Col;
    RowCol(p, p);
    DirectoryEntry(base, Row(p));
    DirectoryEntry(0, p);
  }

  lemma IdentityIs(count: nat)
    ensures forall p: nat :: p in KernelIdentity(count) <==> 1 <= p < count * 1024
    ensures forall p: nat :: p in KernelIdentity(count) ==> KernelIdentity(count)[p] == Mapping(p, 3, true, false)
  {
  }

  lemma RowZero()
    ensures Row(0) == 0 && Col(0) == 0
  {
  }

  lemma IdentityUnseen()
    ensures forall pte: nat :: Seen(READ_WRITE, pte) == []
  {
  }

  /** The directory index and the table index of a page. */
  function Row(p: nat): (i: nat)
    ensures p < PAGES ==> i < 1024
  {
    p / 1024
  }

  function Col(p: nat): (j: nat)
    ensures j < 1024
  {
    p % 1024
  }

  lemma RowCol(p: nat, q: nat)
    ensures p == Row(p) * 1024 + Col(p)
    ensures p != q ==> Row(p) != Row(q) || Col(p) != Col(q)
  {
  }

  /** What a walk finds when the directory is as the kernel keeps it. */
  function Seen(pde: nat, pte: nat): seq<Mapping> {
    if pde % 2 == 0 || pte % 2 == 0 then [] else [Mapping(pte / PAGE, pte % PAGE, Bit(pte, 2), false)]
  }

  lemma SeenPresent(pde: nat, pte: nat)
    requires pde % 2 == 1
    ensures Seen(pde, pte) == Seen(1, pte) && |Seen(1, pte)| <= 1
  {
  }

  /** A translation in which page p is mapped as w says. */
  function Replaced(m: Translation, p: nat, w: seq<Mapping>): Translation {
    if w != [] then m[p := w[0]] else map q: nat | q in m && q != p :: m[q]
  }

  lemma DirectoryEntry(base: nat, i: nat)
    ensures var pde := (base + i) * PAGE + READ_WRITE + PRESENT;
      pde / PAGE == base + i && Bit(pde, 1) && Bit(pde, 2) && !Bit(pde, 4)
  {
    LowBits((base + i) * PAGE + 3);
    var pde := (base + i) * PAGE + 3;
    assert pde == 8 * ((base + i) * 512) + 3;
  }

  /** The table entry that maps a page to the frame of the same number. */
  function SelfEntry(i: nat, j: nat): nat {
    (i * 1024 + j) * PAGE + READ_WRITE + PRESENT
  }

  class PageTables {
    const pgdir: array<nat>
    const tables: array2<nat>

    /** The frame in which the first table lies; table i lies in frame base + i. */
    const base: nat

    /** The directory entry that leads to table i. */
    function DirEntry(i: nat): nat {
      (base + i) * PAGE + READ_WRITE + PRESENT
    }

    ghost predicate Shape() {
      pgdir.Length == 1024 && tables.Length0 == 1024 && tables.Length1 == 1024
    }

    /** A present directory entry leads to the table of its own index, for reading and writing by the kernel. */
    ghost predicate Valid()
      reads pgdir
    {
      Shape() && forall i :: 0 <= i < 1024 && pgdir[i] % 2 == 1 ==> pgdir[i] == DirEntry(i)
    }

    /** The processor's walk: directory, table, frame. */
    ghost function Walk(page: nat): (w: seq<Mapping>)
      requires Shape() && page < PAGES
      reads pgdir, tables
      ensures |w| <= 1
    {
      var pde := pgdir[Row(page)];
      var i := pde / PAGE - base;
      if !Bit(pde, 1) || i < 0 || i >= 1024 then []
      else
        var pte := tables[i, Col(page)];
        if !Bit(pte, 1) then []
        else [Mapping(pte / PAGE, pte % PAGE, Bit(pde, 2) && Bit(pte, 2), Bit(pde, 4) && Bit(pte, 4))]
    }

    ghost function View(): Translation
      requires Shape()
      reads pgdir, tables
    {
      map p: nat | p < PAGES && Walk(p) != [] :: Walk(p)[0]
    }

    constructor (base: nat)
      ensures Shape() && fresh(pgdir) && fresh(tables) && this.base == base
    {
      this.base := base;
      pgdir := new nat[1024](i => 0);
      tables := new nat[1024, 1024]((i, j) => 0);
    }

    lemma WalkIs(page: nat)
      requires Valid() && page < PAGES
      ensures Walk(page) == Seen(pgdir[Row(page)], tables[Row(page), Col(page)])
    {
      hide Row, Col;
      DirectoryEntry(base, Row(page));
    }

    lemma AllWalks()
      requires Valid()
      ensures forall p: nat :: p < PAGES ==> Walk(p) == Seen(pgdir[Row(p)], tables[Row(p), Col(p)])
    {
      forall p: nat | p < PAGES ensures Walk(p) == Seen(pgdir[Row(p)], tables[Row(p), Col(p)]) {
        WalkIs(p);
      }
    }

    method BlankTable(i: nat)
      requires Shape() && i < 1024
      modifies tables
      ensures forall j :: 0 <= j < 1024 ==> tables[i, j] == 0
      ensures forall h, j :: 0 <= h < 1024 && 0 <= j < 1024 && h != i ==> tables[h, j] == old(tables[h, j])
    {
      var j := 0;
      while j < 1024
        invariant 0 <= j <= 1024
        invariant forall k :: 0 <= k < j ==> tables[i, k] == 0
        invariant forall h, k :: 0 <= h < 1024 && 0 <= k < 1024 && h != i ==> tables[h, k] == old(tables[h, k])
      {
        tables[i, j] := 0;
        j := j + 1;
      }
    }

    /** Blanks table i and puts it into the directory: nothing is mapped by that. */
    method CreateTable(i: nat)
      requires Valid() && i < 1024 && pgdir[i] % 2 != 1
      modifies pgdir, tables
      ensures Valid() && pgdir[i] % 2 == 1 && View() == old(View())
      ensures forall j :: 0 <= j < 1024 && j != i ==> pgdir[j] == old(pgdir[j])
    {
      hide Walk, Row, Col;
      AllWalks();
      label Before:
      BlankTable(i);
      pgdir[i] := DirEntry(i);
      AllWalks();
      assert forall p: nat :: p < PAGES ==> Walk(p) == old@Before(Walk(p));
    }

    /** Writes the entry of a page whose table is there. */
    method SetEntry(p: nat, entry: nat)
      requires Valid() && p < PAGES && pgdir[Row(p)] % 2 == 1
      modifies tables
      ensures Valid()
      ensures View() == Replaced(old(View()), p, Seen(1, entry))
    {
      hide Seen, Walk, Row, Col;
      AllWalks();
      label Before:
      tables[Row(p), Col(p)] := entry;
      AllWalks();
      forall q: nat | q < PAGES && q != p ensures Walk(q) == old@Before(Walk(q)) {
        RowCol(p, q);
      }
      SeenPresent(pgdir[Row(p)], entry);
    }

    /** Maps a whole table to the frames of the same addresses. */
    method IdentityTable(i: nat)
      requires Shape() && i < 1024
      modifies tables
      ensures forall j :: 0 <= j < 1024 ==> tables[i, j] == SelfEntry(i, j)
      ensures forall h, j :: 0 <= h < 1024 && 0 <= j < 1024 && h != i ==> tables[h, j] == old(tables[h, j])
    {
      var j := 0;
      while j < 1024
        invariant 0 <= j <= 1024
        invariant forall k :: 0 <= k < j ==> tables[i, k] == SelfEntry(i, k)
        invariant forall h, k :: 0 <= h < 1024 && 0 <= k < 1024 && h != i ==> tables[h, k] == old(tables[h, k])
      {
        tables[i, j] := SelfEntry(i, j);
        j := j + 1;
      }
    }

    method BlankDirectory()
      requires Shape()
      modifies pgdir
      ensures forall i :: 0 <= i < 1024 ==> pgdir[i] == READ_WRITE
    {
      var i := 0;
      while i < 1024
        invariant 0 <= i <= 1024
        invariant forall h :: 0 <= h < i ==> pgdir[h] == READ_WRITE
      {
        pgdir[i] := READ_WRITE;
        i := i + 1;
      }
    }

    method FillTables(count: nat)
      requires Shape() && count <= 1024
      modifies pgdir, tables
      ensures forall i :: 0 <= i < 1024 ==> pgdir[i] == if i < count then DirEntry(i) else READ_WRITE
      ensures forall i, j :: 0 <= i < count && 0 <= j < 1024 ==> tables[i, j] == SelfEntry(i, j)
    {
      BlankDirectory();
      var i := 0;
      while i < count
        invariant 0 <= i <= count
        invariant forall h :: 0 <= h < 1024 ==> pgdir[h] == if h < i then DirEntry(h) else READ_WRITE
        invariant forall h, j :: 0 <= h < i && 0 <= j < 1024 ==> tables[h, j] == SelfEntry(h, j)
      {
        IdentityTable(i);
        pgdir[i] := DirEntry(i);
        i := i + 1;
      }
    }

    /** The table setup of init_paging, for the tables that cover the kernel's memory. */
    method SetupTables(count: nat)
      requires Shape() && count <= 1024
      modifies pgdir, tables
      ensures Valid() && View() == KernelIdentity(count)
    {
      hide Walk, Row, Col, Seen, KernelIdentity;
      FillTables(count);
      tables[0, 0] := READ_WRITE;
      AllWalks();
      forall p: nat | p < PAGES ensures Walk(p) == if 1 <= p < count * 1024 then [Mapping(p, 3, true, false)] else [] {
        IdentitySeen(base, p);
        IdentityUnseen();
        RowCol(p, 0);
        RowZero();
      }
      IdentityIs(count);
    }

    /** init_paging, up to the loading of the directory's address. */
    method InitPaging(memoryMap: seq<MemRange>, userMemStart: nat) returns (code: Code)
      requires Shape() && userMemStart < UINT32
      modifies pgdir, tables
      ensures (forall i :: 0 <= i < |memoryMap| ==> !memoryMap[i].available || memoryMap[i].base == 0) ==>
        code == NoMoreFreeMemory && pgdir[..] == old(pgdir[..])
      ensures forall i :: 0 <= i < |memoryMap| && memoryMap[i].available && memoryMap[i].base != 0
                          && (forall j :: 0 <= j < i ==> !memoryMap[j].available || memoryMap[j].base == 0) ==>
        var count := KernelTables(userMemStart);
        var nextFree := count * 1024 * PAGE % UINT32;
        && Valid() && View() == KernelIdentity(count)
        && (forall p: nat :: p in View() <==> 1 <= p < count * 1024)
        && (forall p: nat :: p in View() ==> View()[p] == Mapping(p, 3, true, false))
        && code == if memoryMap[i].base <= nextFree < memoryMap[i].limit then NoError else NoMoreFreeMemory
    {
      hide View, Walk, KernelIdentity;
      var i := FindRange(memoryMap);
      if i == |memoryMap| {
        return NoMoreFreeMemory;
      }
      var range := memoryMap[i];
      var count := CountTables(userMemStart);
      SetupTables(count);
      IdentityIs(count);
      var nextFree := count * 1024 * PAGE % UINT32;
      if nextFree < range.base || nextFree >= range.limit {
        return NoMoreFreeMemory;
      }
      code := NoError;
    }

    /** One turn of kernel_mmap's loop; fails if the page is mapped and may not be mapped again. */
    method MapPage(va: nat, pa: nat, flags: nat, remap: bool, ghost p: nat) returns (ok: bool)
      requires Valid() && va == p * PAGE && p < PAGES && pa % PAGE == 0
      modifies pgdir, tables
      ensures Valid() && ok == (remap || p !in old(View()))
      ensures !ok ==> View() == old(View())
      ensures ok ==>
        var e := EntryFor(pa, flags); View() == old(View())[p := Mapping(e / PAGE, e % PAGE, Bit(e, 2), false)]
    {
      hide Or;
      var i, j := va / 0x40_0000, va / PAGE % 1024;
      PageOf(va, p);
      if pgdir[i] % 2 != 1 {
        CreateTable(i);
      }
      MappedIff(p);
      if tables[i, j] % 2 == 1 && !remap {
        return false;
      }
      EntryIs(pa, flags);
      OddEntry(pa, flags);
      SetEntry(va / PAGE, EntryFor(pa, flags));
      ok := true;
    }

    /** kernel_mmap, for ranges that do not reach the last page. */
    method KernelMmap(virt: nat, phys: nat, size: nat, flags: nat, remap: bool) returns (code: Code)
      requires Valid() && virt < UINT32 && phys < UINT32 && size < UINT32 && flags < 0x1_0000
      requires (virt + size) % UINT32 <= LAST_PAGE
      modifies pgdir, tables
      ensures Valid()
      ensures (View(), code) == Mmap(old(View()), virt, phys, size, flags, remap)
    {
      hide MapPages, FirstMapped, EntryFor, MappingFor, PageAfter, View, Walk, Or, Range;
      var end := (virt + size) % UINT32;
      var va, pa := virt - virt % PAGE, phys - phys % PAGE;
      ghost var was, first, after, k := View(), FirstPage(virt), PageAfter(virt, size), 0;
      MapNothing(was, first, phys, flags);
      while va < end
        invariant va == (first + k) * PAGE && pa == (phys / PAGE + k) % PAGES * PAGE && first + k <= after
        invariant Valid() && View() == MapPages(was, first, k, phys, flags)
        invariant !remap ==> FirstMapped(was, first, after) == FirstMapped(was, first + k, after)
        decreases after - first - k
      {
        InRange(virt, size, k);
        StopHere(was, first + k, after);
        MapAfter(was, first, k, phys, flags);
        var ok := MapPage(va, pa, flags, remap, first + k);
        if !ok {
          return MappingAlreadyExists;
        }
        EntryMaps(phys, flags, k, pa);
        MapOneMore(was, first, k, phys, flags);
        va, pa := va + PAGE, (pa + PAGE) % UINT32;
        k := k + 1;
        NextFrame(phys, k, pa);
      }
      InRange(virt, size, k);
      StopHere(was, first + k, after);
      code := NoError;
    }

    /** kernel_munmap. */
    method KernelMunmap(virt: nat, size: nat) returns (code: Code)
      requires Valid() && virt < UINT32 && size < UINT32 && (virt + size) % UINT32 <= LAST_PAGE
      modifies tables
      ensures Valid()
      ensures (View(), code) == Munmap(old(View()), virt, size)
    {
      hide UnmapPages, FirstUnmapped, PageAfter, View, Walk, Range;
      var end := (virt + size) % UINT32;
      var va := virt - virt % PAGE;
      ghost var was, first, after, k := View(), FirstPage(virt), PageAfter(virt, size), 0;
      UnmapNothing(was, first);
      while va < end
        invariant va == (first + k) * PAGE && first + k <= after
        invariant Valid() && View() == UnmapPages(was, first, k)
        invariant FirstUnmapped(was, first, after) == FirstUnmapped(was, first + k, after)
        decreases after - first - k
      {
        InRange(virt, size, k);
        StopHere(was, first + k, after);
        UnmapAfter(was, first, k);
        var ok := UnmapPage(va, first + k);
        if !ok {
          return MemoryNotMapped;
        }
        UnmapOneMore(was, first, k);
        va := va + PAGE;
        k := k + 1;
      }
      InRange(virt, size, k);
      StopHere(was, first + k, after);
      code := NoError;
    }

    method UnmapPage(va: nat, ghost p: nat) returns (ok: bool)
      requires Valid() && va == p * PAGE && p < PAGES
      modifies tables
      ensures Valid() && ok == (p in old(View()))
      ensures !ok ==> View() == old(View())
      ensures ok ==> View() == map q: nat | q in old(View()) && q != p :: old(View())[q]
    {
      var i, j := va / 0x40_0000, va / PAGE % 1024;
      PageOf(va, p);
      if pgdir[i] % 2 != 1 {
        WalkIs(p);
        return false;
      }
      MappedIff(p);
      if tables[i, j] % 2 != 1 {
        return false;
      }
      SetEntry(va / PAGE, 0);
      ok := true;
    }

    /** A page is mapped when its entry is present, its table being there. */
    lemma MappedIff(p: nat)
      requires Valid() && p < PAGES && pgdir[Row(p)] % 2 == 1
      ensures p in View() <==> tables[Row(p), Col(p)] % 2 == 1
    {
      WalkIs(p);
    }
  }

  lemma PageOf(va: nat, p: nat)
    requires va == p * PAGE && va < UINT32
    ensures va / 0x40_0000 == Row(p) && va / PAGE % 1024 == Col(p) && va / PAGE == p < PAGES
  {
  }

  lemma OddEntry(pa: nat, flags: nat)
    requires pa % PAGE == 0
    ensures EntryFor(pa, flags) % 2 == 1
  {
    EntryIs(pa, flags);
    hide Or;
    SecondBit(EntryFor(pa, flags), flags);
  }

  lemma NextFrame(phys: nat, k: nat, pa: nat)
    requires k > 0 && pa == ((phys / PAGE + k - 1) % PAGES * PAGE + PAGE) % UINT32
    ensures pa == (phys / PAGE + k) % PAGES * PAGE
  {
  }

  /** The loops go on exactly as long as pages are left. */
  lemma InRange(virt: nat, size: nat, k: nat)
    requires FirstPage(virt) + k <= PageAfter(virt, size)
    ensures (FirstPage(virt) + k) * PAGE < (virt + size) % UINT32 <==> FirstPage(virt) + k < PageAfter(virt, size)
  {
  }

  lemma StopHere(m: Translation, p: nat, after: nat)
    requires p <= after
    ensures p == after || p in m ==> FirstMapped(m, p, after) == p
    ensures p < after && p !in m ==> FirstMapped(m, p, after) == FirstMapped(m, p + 1, after)
    ensures p == after || p !in m ==> FirstUnmapped(m, p, after) == p
    ensures p < after && p in m ==> FirstUnmapped(m, p, after) == FirstUnmapped(m, p + 1, after)
  {
  }

  lemma MapNothing(m: Translation, first: nat, phys: nat, flags: nat)
    ensures MapPages(m, first, 0, phys, flags) == m
  {
  }

  lemma MapAfter(m: Translation, first: nat, k: nat, phys: nat, flags: nat)
    ensures first + k in MapPages(m, first, k, phys, flags) <==> first + k in m
  {
  }

  lemma UnmapNothing(m: Translation, first: nat)
    ensures UnmapPages(m, first, 0) == m
  {
  }

  lemma UnmapAfter(m: Translation, first: nat, k: nat)
    ensures first + k in UnmapPages(m, first, k) <==> first + k in m
  {
  }

  lemma UnmapOneMore(m: Translation, first: nat, k: nat)
    ensures var r := UnmapPages(m, first, k);
      UnmapPages(m, first, k + 1) == map q: nat | q in r && q != first + k :: r[q]
  {
  }

  lemma MapOneMore(m: Translation, first: nat, k: nat, phys: nat, flags: nat)
    ensures MapPages(m, first, k + 1, phys, flags)
         == MapPages(m, first, k, phys, flags)[first + k := MappingFor(phys, flags, k)]
  {
  }

  lemma EntryMaps(phys: nat, flags: nat, k: nat, pa: nat)
    requires pa == (phys / PAGE + k) % PAGES * PAGE
    ensures var e := EntryFor(pa, flags);
      e % 2 == 1 && Mapping(e / PAGE, e % PAGE, Bit(e, 2), false) == MappingFor(phys, flags, k)
  {
    EntryIs(pa, flags);
    hide Or;
    assert pa % PAGE == 0 && pa / PAGE == (phys / PAGE + k) % PAGES;
    SecondBit(EntryFor(pa, flags), flags);
  }

  lemma LowBits(x: nat)
    ensures x / 2 % 2 == x % PAGE / 2 % 2 && x % 2 == x % PAGE % 2
  {
    var q, r := x / PAGE, x % PAGE;
    Quarter(r, r / 4, r % 4);
    Quarter(x, q * 1024 + r / 4, r % 4);
  }

  lemma SecondBit(e: nat, flags: nat)
    requires e % PAGE == flags % PAGE - flags % 2 + PRESENT
    ensures e % 2 == 1 && Bit(e, 2) == Bit(flags, 2)
  {
    LowBits(e);
    LowBits(flags);
    var f := flags % PAGE;
    assert (f - f % 2 + 1) / 2 == f / 2;
  }

  // ----- what the calls achieve -------------------------------------------------------------------

  /** Where an address leads. */
  function Resolve(m: Translation, a: nat): (r: seq<nat>)
    ensures |r| <= 1
  {
    if a / PAGE in m then [m[a / PAGE].frame * PAGE + a % PAGE] else []
  }

  /** Page p of a range that is mapped from page first up to page stop. */
  ghost predicate PageMapped(m: Translation, r: Translation, p: nat, first: nat, stop: nat, phys: nat, flags: nat) {
    if first <= p < stop then
      p in r && r[p].frame == (phys / PAGE + p - first) % PAGES && r[p].flags == Or(flags, PRESENT)
      && r[p].writable == Bit(flags, 2) && !r[p].user
    else (p in r <==> p in m) && (p in m ==> r[p] == m[p])
  }

  /** With flags below 0x1000, the pages of the range go to consecutive frames, with the flags given,
      and no other page changes. Without remapping, the call stops before the first page that was
      mapped: it succeeds if and only if there is none, and the pages before it are mapped. */
  lemma MmapMapsExactly(m: Translation, virt: nat, phys: nat, size: nat, flags: nat, remap: bool)
    requires flags < PAGE
    ensures var (r, code) := Mmap(m, virt, phys, size, flags, remap);
      var first, after, stop := FirstPage(virt), PageAfter(virt, size), StopPage(m, virt, size, remap);
      && (forall p: nat :: PageMapped(m, r, p, first, stop, phys, flags))
      && (code == NoError <==> remap || forall p: nat :: first <= p < after ==> p !in m)
      && (code == MappingAlreadyExists <==> code != NoError)
      && (code == NoError ==> stop == after)
      && (code != NoError ==> stop < after && stop in m && forall p: nat :: first <= p < stop ==> p !in m)
  {
    hide Or;
    var r, first, stop := Mmap(m, virt, phys, size, flags, remap).0, FirstPage(virt), StopPage(m, virt, size, remap);
    forall p: nat ensures PageMapped(m, r, p, first, stop, phys, flags) {
      MapPagesPage(m, first, stop - first, phys, flags, p);
    }
    hide MapPages, PageAfter;
    assert FirstMapped(m, first, PageAfter(virt, size)) < PageAfter(virt, size) ==>
      FirstMapped(m, first, PageAfter(virt, size)) in m;
  }

  lemma MapPagesPage(m: Translation, first: nat, n: nat, phys: nat, flags: nat, p: nat)
    requires flags < PAGE
    ensures PageMapped(m, MapPages(m, first, n, phys, flags), p, first, first + n, phys, flags)
  {
    PresentFlags(flags);
    if first <= p < first + n {
      assert Or((phys / PAGE + (p - first)) % PAGES, 0) == (phys / PAGE + (p - first)) % PAGES;
    }
  }

  lemma PresentFlags(flags: nat)
    ensures Or(flags, PRESENT) == flags - flags % 2 + PRESENT
  {
    assert Or(flags / 2, 0) == flags / 2;
  }

  /** The addresses from virt on lead to those from phys on. */
  ghost predicate LeadsTo(r: Translation, virt: nat, phys: nat, size: nat) {
    forall a: nat :: virt <= a < virt + size ==> Resolve(r, a) == [phys + a - virt]
  }

  /** The range leads to the physical range byte for byte if and only if the two start at the same
      offset in a page; neither may wrap around. */
  lemma MmapAddressesIff(m: Translation, virt: nat, phys: nat, size: nat, flags: nat, remap: bool)
    requires flags < PAGE && 0 < size && virt + size <= LAST_PAGE && phys + size <= LAST_PAGE
    requires Mmap(m, virt, phys, size, flags, remap).1 == NoError
    ensures LeadsTo(Mmap(m, virt, phys, size, flags, remap).0, virt, phys, size) <==> virt % PAGE == phys % PAGE
  {
    var r := Mmap(m, virt, phys, size, flags, remap).0;
    forall a: nat | virt <= a < virt + size
      ensures Resolve(r, a) == [phys - phys % PAGE + virt % PAGE + (a - virt)]
    {
      AddressLeads(m, virt, phys, size, flags, remap, a);
    }
    hide Resolve, Mmap;
    assert virt <= virt < virt + size;
    assert Resolve(r, virt) == [phys - phys % PAGE + virt % PAGE];
  }

  lemma AddressLeads(m: Translation, virt: nat, phys: nat, size: nat, flags: nat, remap: bool, a: nat)
    requires flags < PAGE && virt <= a < virt + size && virt + size <= LAST_PAGE && phys + size <= LAST_PAGE
    requires Mmap(m, virt, phys, size, flags, remap).1 == NoError
    ensures Resolve(Mmap(m, virt, phys, size, flags, remap).0, a) == [phys - phys % PAGE + virt % PAGE + (a - virt)]
  {
    hide Or, MapPages, FirstMapped;
    MmapMapsExactly(m, virt, phys, size, flags, remap);
    var (r, code) := Mmap(m, virt, phys, size, flags, remap);
    var first, after, p := FirstPage(virt), PageAfter(virt, size), a / PAGE;
    PageInRange(virt, size, a);
    assert PageMapped(m, r, p, first, after, phys, flags);
    hide Mmap, PageAfter;
    assert phys / PAGE + p - first < PAGES;
  }

  lemma PageInRange(virt: nat, size: nat, a: nat)
    requires virt <= a < virt + size < UINT32
    ensures FirstPage(virt) <= a / PAGE < PageAfter(virt, size)
  {
    assert (virt + size) % UINT32 == virt + size;
  }

  /** Unmapping what was mapped into a wholly unmapped range restores the translation. */
  lemma UnmapUndoesMap(m: Translation, virt: nat, phys: nat, size: nat, flags: nat, remap: bool)
    requires forall p: nat :: FirstPage(virt) <= p < PageAfter(virt, size) ==> p !in m
    ensures Mmap(m, virt, phys, size, flags, remap).1 == NoError
    ensures Munmap(Mmap(m, virt, phys, size, flags, remap).0, virt, size) == (m, NoError)
  {
    var r := Mmap(m, virt, phys, size, flags, remap).0;
    var first, after := FirstPage(virt), PageAfter(virt, size);
    assert StopPage(m, virt, size, remap) == after;
    assert FirstUnmapped(r, first, after) == after;
    assert UnmapPages(r, first, after - first) == m;
  }

  /** kernel_munmap succeeds if and only if every page of the range is mapped, and unmaps them all
      then; otherwise it unmaps exactly those before the first that is not mapped. */
  lemma MunmapIff(m: Translation, virt: nat, size: nat)
    ensures var (r, code) := Munmap(m, virt, size);
      var first, after := FirstPage(virt), PageAfter(virt, size);
      var stop := FirstUnmapped(m, first, after);
      && (code == NoError <==> forall p: nat :: first <= p < after ==> p in m)
      && (code == NoError <==> stop == after)
      && (code == MemoryNotMapped <==> code != NoError)
      && (code != NoError ==> first <= stop < after && stop !in m)
      && (forall p: nat :: first <= p < stop ==> p in m && p !in r)
      && (forall p: nat :: !(first <= p < stop) ==> (p in r <==> p in m) && (p in m ==> r[p] == m[p]))
  {
    var stop := FirstUnmapped(m, FirstPage(virt), PageAfter(virt, size));
    assert stop < PageAfter(virt, size) ==> stop !in m;
  }

  /** The pages that both calls work on: those from the page of the first byte on that start below the
      32-bit end of the range. */
  lemma PagesAre(virt: nat, size: nat, p: nat)
    ensures FirstPage(virt) <= p < PageAfter(virt, size)
       <==> virt - virt % 0x1000 <= p * 0x1000 < (virt + size) % 0x1_0000_0000
  {
    var end := (virt + size) % UINT32;
    assert virt - virt % PAGE == FirstPage(virt) * PAGE;
    assert p < (end + PAGE - 1) / PAGE <==> p * PAGE < end;
  }

  /** If the end does not wrap, these are exactly the pages of the bytes of a range that is not empty. */
  lemma PagesTouched(virt: nat, size: nat, p: nat)
    requires 0 < size && virt + size < UINT32
    ensures FirstPage(virt) <= p < PageAfter(virt, size) <==> exists a: nat :: virt <= a < virt + size && a / PAGE == p
  {
    PagesAre(virt, size, p);
    if FirstPage(virt) <= p < PageAfter(virt, size) {
      var a := if p * PAGE < virt then virt else p * PAGE;
      assert virt <= a < virt + size && a / PAGE == p;
    }
    forall a: nat | virt <= a < virt + size && a / PAGE == p ensures FirstPage(virt) <= p < PageAfter(virt, size) {
      PageInRange(virt, size, a);
    }
  }

  /** When the 32-bit end of the range wraps to below its first page, nothing is mapped and the call
      still succeeds. */
  lemma WrappedRangeMapsNothing(m: Translation, virt: nat, phys: nat, size: nat, flags: nat, remap: bool)
    requires (virt + size) % UINT32 <= virt - virt % PAGE
    ensures Mmap(m, virt, phys, size, flags, remap) == (m, NoError)
  {
    assert PageAfter(virt, size) == FirstPage(virt);
    MapNothing(m, FirstPage(virt), phys, flags);
  }
}
