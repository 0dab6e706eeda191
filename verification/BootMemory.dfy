/** Building the first page tables, before paging is on: `ke_alloc`, `map_at` and the loops of `boot_init_mem`. */
module BootMemory {
  import opened Common
  import opened Paging
  import VirtualMemory
  import FB = FrameBoot

  const KERNEL_HIGH_VMA := 0xE000_0000

  /** `pages` pages from `page` on, mapped to consecutive frames, in 32-bit address arithmetic. */
  function Range(space: map<nat, nat>, page: nat, frame: nat, pages: nat): map<nat, nat> {
    if pages == 0 then space
    else Range(space, page, frame, pages - 1)[(page + pages - 1) % PAGES := frame + pages - 1]
  }

  function Between(first: nat, end: nat): nat {
    if first < end then end - first else 0
  }

  /** Pages of `ALIGN_TO(bytes, 0x1000)`. */
  function AlignedPages(bytes: nat): nat {
    (bytes + 0xFFF) / 0x1000
  }

  /** Bytes of the frame bitmap and of the frame stack for the highest usable address. */
  function BitmapBytes(highest: nat): nat {
    highest / 0x1000 / 4
  }

  function StackBytes(highest: nat): nat {
    highest / 0x1000 * 4 + 4
  }

  /** The kernel's own mappings: identity, high half, the window. */
  function KernelSpace(first: nat, d: nat): map<nat, nat> {
    var identity := Range(map[], 0x100, 0x100, Between(0x100, d));
    var high := Range(identity, first + 0xE_0000, first, Between(first, d));
    Range(high, WINDOW, d, 1025)
  }

  /** Pages of the bitmap and of the stack together. */
  function StructurePages(highest: nat): nat {
    AlignedPages(BitmapBytes(highest)) + AlignedPages(StackBytes(highest))
  }

  /** The 32-bit loop counter reaches the end of every region it runs over. */
  predicate MappingEnds(regions: seq<FB.Region>) {
    forall j :: 0 <= j < |regions| && IsLow(regions[j]) ==> FB.CounterFits(regions[j])
  }

  /** Before the reserved memory is mapped. */
  function BootSpace(first: nat, d: nat, highest: nat, mbi: nat): map<nat, nat> {
    var bitmap := AlignedPages(BitmapBytes(highest));
    var withBitmap := Range(KernelSpace(first, d), WINDOW + 1025, d + 1025, bitmap);
    Range(withBitmap, WINDOW + 1025 + bitmap, d + 1025 + bitmap, StackBytes(highest) / 0x1000)[mbi := mbi]
  }

  /** Reserved memory that begins below the kernel; `basehigh` is not looked at here. */
  predicate IsLow(r: FB.Region) {
    r.kind == FB.RESERVED && r.baseLow < KERNEL_BOOT_VMA
  }

  /** The page turn `i` of the loop over a region maps to itself, in 32-bit address arithmetic. */
  function TurnPage(r: FB.Region, i: nat): nat {
    PageOf((r.baseLow + i * 0x1000) % U32)
  }

  function Turned(space: map<nat, nat>, r: FB.Region, k: nat): map<nat, nat> {
    if k == 0 then space else Turned(space, r, k - 1)[TurnPage(r, k - 1) := TurnPage(r, k - 1)]
  }

  function Identities(space: map<nat, nat>, regions: seq<FB.Region>): map<nat, nat> {
    if regions == [] then space
    else
      var r, before := regions[|regions| - 1], Identities(space, regions[..|regions| - 1]);
      if IsLow(r) then Turned(before, r, FB.Pages(r)) else before
  }

  /** The address space when paging is switched on. */
  function FinalSpace(first: nat, d: nat, highest: nat, mbi: nat, regions: seq<FB.Region>): map<nat, nat> {
    Identities(BootSpace(first, d, highest, mbi), regions)
  }

  ghost predicate Touches(r: FB.Region, p: nat) {
    IsLow(r) && exists i: nat :: i < FB.Pages(r) && TurnPage(r, i) == p
  }

  ghost predicate Reserved(regions: seq<FB.Region>, p: nat) {
    exists j :: 0 <= j < |regions| && Touches(regions[j], p)
  }

  lemma {:induction false} TurnedAt(space: map<nat, nat>, r: FB.Region, k: nat, p: nat)
    ensures var mine := exists i: nat :: i < k && TurnPage(r, i) == p;
      && (p in Turned(space, r, k) <==> p in space || mine)
      && (p in Turned(space, r, k) ==> Turned(space, r, k)[p] == if mine then p else space[p])
  {
    if k > 0 {
      TurnedAt(space, r, k - 1, p);
      assert TurnPage(r, k - 1) != p ==> forall i: nat :: i < k && TurnPage(r, i) == p ==> i < k - 1;
    }
  }

  /** The reserved pages map to themselves, whatever was there before, and nothing else changes. */
  lemma {:induction false} IdentitiesAt(space: map<nat, nat>, regions: seq<FB.Region>, p: nat)
    ensures p in Identities(space, regions) <==> p in space || Reserved(regions, p)
    ensures p in Identities(space, regions) ==>
      Identities(space, regions)[p] == if Reserved(regions, p) then p else space[p]
  {
    if regions != [] {
      var m := |regions| - 1;
      var before := Identities(space, regions[..m]);
      IdentitiesAt(space, regions[..m], p);
      if IsLow(regions[m]) {
        TurnedAt(before, regions[m], FB.Pages(regions[m]), p);
      }
      assert forall j :: 0 <= j < m ==> regions[..m][j] == regions[j];
      assert Reserved(regions, p) <==> Reserved(regions[..m], p) || Touches(regions[m], p);
    }
  }

  /** Within the address space a range maps its own pages, each to its frame, and leaves the others. */
  lemma {:induction false} RangeAt(space: map<nat, nat>, page: nat, frame: nat, pages: nat, p: nat)
    requires page + pages <= PAGES
    ensures page <= p < page + pages ==>
      p in Range(space, page, frame, pages) && Range(space, page, frame, pages)[p] == frame + (p - page)
    ensures !(page <= p < page + pages) ==>
      (p in Range(space, page, frame, pages) <==> p in space) &&
      (p in space ==> Range(space, page, frame, pages)[p] == space[p])
  {
    if pages > 0 {
      assert (page + pages - 1) % PAGES == page + pages - 1;
      RangeAt(space, page, frame, pages - 1, p);
    }
  }

  /** The other mappings go above the window, so only the record's page and reserved ones could disturb it. */
  lemma FinalShows(first: nat, d: nat, highest: nat, mbi: nat, regions: seq<FB.Region>, k: nat)
    requires highest < U32 && k <= 1024
    ensures var space, page := FinalSpace(first, d, highest, mbi, regions), WINDOW + k;
      page in space && space[page] == if mbi == page || Reserved(regions, page) then page else d + k
  {
    BootShows(first, d, highest, mbi, k);
    IdentitiesAt(BootSpace(first, d, highest, mbi), regions, WINDOW + k);
  }

  lemma BootShows(first: nat, d: nat, highest: nat, mbi: nat, k: nat)
    requires highest < U32 && k <= 1024
    ensures var space := BootSpace(first, d, highest, mbi);
      WINDOW + k in space && space[WINDOW + k] == if mbi == WINDOW + k then mbi else d + k
  {
    var identity := Range(map[], 0x100, 0x100, Between(0x100, d));
    var high := Range(identity, first + 0xE_0000, first, Between(first, d));
    var bitmap, stack := AlignedPages(BitmapBytes(highest)), StackBytes(highest) / 0x1000;
    var withBitmap := Range(KernelSpace(first, d), WINDOW + 1025, d + 1025, bitmap);
    Sizes(highest);
    RangeAt(high, WINDOW, d, 1025, WINDOW + k);
    RangeAt(KernelSpace(first, d), WINDOW + 1025, d + 1025, bitmap, WINDOW + k);
    RangeAt(withBitmap, WINDOW + 1025 + bitmap, d + 1025 + bitmap, stack, WINDOW + k);
  }

  lemma Sizes(highest: nat)
    requires highest < U32
    ensures AlignedPages(BitmapBytes(highest)) <= 0x40 && StackBytes(highest) / 0x1000 <= 0x400
  {
  }

  lemma ShowsInSpace(m: Ram, d: nat, k: nat)
    requires k <= 1024
    ensures Shows(m, d, k) <==> WINDOW + k in Space(m, d) && Space(m, d)[WINDOW + k] == d + k
  {
  }

  /** Every page that `boot_init_mem` maps to itself last leaves the window alone. */
  ghost predicate SparesWindow(d: nat, mbi: nat, regions: seq<FB.Region>) {
    LeavesWindow(d, mbi, mbi) && forall p: nat :: Reserved(regions, p) ==> LeavesWindow(d, p, p)
  }

  /** Boot establishes the alias exactly when the record's page and the reserved pages leave the window alone. */
  lemma BootReady(m: Ram, first: nat, d: nat, highest: nat, mbi: nat, regions: seq<FB.Region>)
    requires Layout(m, d) && Dormant(m, d) && highest < U32
    requires Space(m, d) == FinalSpace(first, d, highest, mbi, regions)
    ensures Ready(m, d) <==> SparesWindow(d, mbi, regions)
  {
    forall k | 0 <= k <= 1024
      ensures Shows(m, d, k) <==> (mbi == WINDOW + k || Reserved(regions, WINDOW + k) ==> LeavesWindow(d, WINDOW + k, WINDOW + k))
    {
      ShowsInSpace(m, d, k);
      FinalShows(first, d, highest, mbi, regions, k);
    }
    if Ready(m, d) {
      forall p: nat | p == mbi || Reserved(regions, p) ensures LeavesWindow(d, p, p) {
        if WINDOW <= p <= WINDOW + 1024 {
          assert Shows(m, d, p - WINDOW);
        }
      }
    }
  }

  /** A kernel that ends below 384 MiB is mapped where it lies and again 0xE0000000 higher. */
  lemma BootKernel(first: nat, d: nat, highest: nat, mbi: nat, regions: seq<FB.Region>, p: nat)
    requires highest < U32 && d <= 0x1_8000 && p < d
    requires mbi != p + 0xE_0000 && !Reserved(regions, p + 0xE_0000)
    ensures var space := FinalSpace(first, d, highest, mbi, regions);
      && (0x100 <= p ==> p in space && space[p] == p)
      && (first <= p ==> p + 0xE_0000 in space && space[p + 0xE_0000] == p)
  {
    FinalAt(first, d, highest, mbi, regions, p);
    FinalAt(first, d, highest, mbi, regions, p + 0xE_0000);
  }

  /**
    The stack has a cell for every frame and one more, but only its whole pages are mapped: with a kernel that ends
    below 384 MiB, cell `c` can be reached exactly when it lies in one of them (or its page is mapped to itself).
   */
  lemma StackReach(first: nat, d: nat, highest: nat, mbi: nat, regions: seq<FB.Region>, c: nat)
    requires highest < U32 && d <= 0x1_8000 && c <= highest / 0x1000
    ensures var page := WINDOW + 1025 + AlignedPages(BitmapBytes(highest)) + c / 1024;
      page in FinalSpace(first, d, highest, mbi, regions) <==>
        c / 1024 < (highest / 0x1000 + 1) / 1024 || mbi == page || Reserved(regions, page)
  {
    Sizes(highest);
    WholePages(highest / 0x1000);
    FinalAt(first, d, highest, mbi, regions, WINDOW + 1025 + AlignedPages(BitmapBytes(highest)) + c / 1024);
  }

  /**
    The bitmap word of frame `n` lies in the bitmap's own pages, except for the last one to three
    frames when their number is 1 to 3 more than a multiple of 16384: the bitmap is a byte short then,
    and the word is the first of the stack.
   */
  lemma BitmapRoom(highest: nat, n: nat)
    requires n < highest / 0x1000
    ensures var bytes, page := BitmapBytes(highest), n / 16 / 1024;
      && (page < AlignedPages(bytes) <==> !(bytes % 0x1000 == 0 && n / 4 == bytes))
      && (page >= AlignedPages(bytes) ==> page == AlignedPages(bytes) && n / 16 % 1024 == 0)
  {
    var bytes := BitmapBytes(highest);
    assert n / 16 / 1024 == n / 4 / 0x1000;
  }

  /** The multiboot record can be read where the loader left it, after paging is on. */
  lemma RecordMapped(first: nat, d: nat, highest: nat, mbi: nat, regions: seq<FB.Region>)
    ensures var space := FinalSpace(first, d, highest, mbi, regions); mbi in space && space[mbi] == mbi
  {
    IdentitiesAt(BootSpace(first, d, highest, mbi), regions, mbi);
  }

  /** The frame that page `p` of the kernel's structures leads to: window, bitmap, stack, one after the other. */
  function StructureFrame(d: nat, highest: nat, p: nat): Option<nat> {
    if WINDOW <= p < WINDOW + 1025 + AlignedPages(BitmapBytes(highest)) + StackBytes(highest) / 0x1000
    then Some(d + (p - WINDOW)) else None
  }

  /** The frame that page `p` of the kernel itself leads to, at its own addresses or in the high half. */
  function KernelFrame(first: nat, d: nat, p: nat): Option<nat> {
    if 0x100 <= p < d then Some(p)
    else if first + 0xE_0000 <= p < d + 0xE_0000 then Some(p - 0xE_0000)
    else None
  }

  /** Everything that is mapped when paging is switched on, page by page. */
  ghost function Lookup(first: nat, d: nat, highest: nat, mbi: nat, regions: seq<FB.Region>, p: nat): Option<nat> {
    if p == mbi || Reserved(regions, p) then Some(p)
    else if StructureFrame(d, highest, p).Some? then StructureFrame(d, highest, p)
    else KernelFrame(first, d, p)
  }

  predicate Leads(space: map<nat, nat>, p: nat, frame: Option<nat>) {
    match frame
    case None => p !in space
    case Some(f) => p in space && space[p] == f
  }

  /** The kernel's own pages, before its structures are mapped. */
  lemma HighAt(first: nat, d: nat, p: nat)
    requires d <= 0x1_8000 && p < PAGES
    ensures var identity := Range(map[], 0x100, 0x100, Between(0x100, d));
      Leads(Range(identity, first + 0xE_0000, first, Between(first, d)), p, KernelFrame(first, d, p))
  {
    var identity := Range(map[], 0x100, 0x100, Between(0x100, d));
    RangeAt(map[], 0x100, 0x100, Between(0x100, d), p);
    if first < d {
      RangeAt(identity, first + 0xE_0000, first, Between(first, d), p);
    }
  }

  lemma StructuresAt(first: nat, d: nat, highest: nat, mbi: nat, p: nat)
    requires highest < U32 && d <= 0x1_8000 && p < PAGES
    ensures Leads(BootSpace(first, d, highest, mbi), p,
                  if p == mbi then Some(p)
                  else if StructureFrame(d, highest, p).Some? then StructureFrame(d, highest, p)
                  else KernelFrame(first, d, p))
  {
    var identity := Range(map[], 0x100, 0x100, Between(0x100, d));
    var high := Range(identity, first + 0xE_0000, first, Between(first, d));
    var bitmap, stack := AlignedPages(BitmapBytes(highest)), StackBytes(highest) / 0x1000;
    var withBitmap := Range(KernelSpace(first, d), WINDOW + 1025, d + 1025, bitmap);
    Sizes(highest);
    HighAt(first, d, p);
    RangeAt(high, WINDOW, d, 1025, p);
    RangeAt(KernelSpace(first, d), WINDOW + 1025, d + 1025, bitmap, p);
    RangeAt(withBitmap, WINDOW + 1025 + bitmap, d + 1025 + bitmap, stack, p);
  }

  /**
    With a kernel that ends below 384 MiB every page of the address space leads where the
    look-up says: record and reserved memory to themselves, the window, the bitmap and the
    whole pages of the stack to the frames behind the kernel in this order, the kernel to
    its frames twice; no other page is mapped.
   */
  lemma FinalAt(first: nat, d: nat, highest: nat, mbi: nat, regions: seq<FB.Region>, p: nat)
    requires highest < U32 && d <= 0x1_8000 && p < PAGES
    ensures Leads(FinalSpace(first, d, highest, mbi, regions), p, Lookup(first, d, highest, mbi, regions, p))
  {
    StructuresAt(first, d, highest, mbi, p);
    IdentitiesAt(BootSpace(first, d, highest, mbi), regions, p);
  }

  lemma WholePages(frames: nat)
    ensures (frames * 4 + 4) / 0x1000 == (frames + 1) / 1024
  {
  }

  /** The directory's entries before any is present. */
  predicate Fresh(m: Ram, d: nat, i: nat) {
    DirAt(d, i) < |m| && m[DirAt(d, i)] == (d + 1 + i) * 0x1000
  }

  lemma FreshPoints(m: Ram, d: nat, i: nat)
    requires Fresh(m, d, i)
    ensures PointsHome(m, d, i) && !Present(m[DirAt(d, i)])
  {
    FrameOf(d + 1 + i, 0);
    PresentOf(d + 1 + i, 0);
  }

  /** With a fresh directory and cleared tables nothing is mapped. */
  lemma FreshEmpty(m: Ram, d: nat)
    requires d + 1025 <= PAGES && (d + 1025) * 1024 <= |m|
    requires forall i :: 0 <= i < 1024 ==> Fresh(m, d, i)
    requires forall x :: EntryAt(d, 0) <= x < EntryAt(d, PAGES) ==> m[x] == 0
    ensures Layout(m, d) && Dormant(m, d) && Space(m, d) == map[]
  {
    forall i | 0 <= i < 1024 ensures PointsHome(m, d, i) && !Present(m[DirAt(d, i)]) {
      FreshPoints(m, d, i);
    }
    forall page | 0 <= page < PAGES ensures Asleep(m, d, page) && Walk(m, d, page).None? {
      WalkIs(m, d, page);
    }
  }

  /** Memory before and behind the directory and the tables. */
  function Rest(m: Ram, d: nat): (seq<nat>, seq<nat>)
    requires (d + 1025) * 1024 <= |m|
  {
    (m[..d * 1024], m[(d + 1025) * 1024..])
  }

  lemma RestKept(m: Ram, n: Ram, d: nat)
    requires (d + 1025) * 1024 <= |m| == |n|
    requires forall x :: 0 <= x < |m| && !(DirAt(d, 0) <= x < EntryAt(d, PAGES)) ==> n[x] == m[x]
    ensures Rest(n, d) == Rest(m, d)
  {
    assert n[..d * 1024] == m[..d * 1024];
    assert n[(d + 1025) * 1024..] == m[(d + 1025) * 1024..];
  }

  lemma PutRest(m: Ram, d: nat, page: nat, frame: nat)
    requires page < PAGES && (d + 1025) * 1024 <= |m|
    ensures Rest(Put(m, d, page, frame), d) == Rest(m, d)
  {
    EntryBehind(d, page / 1024, page);
    RestKept(m, Put(m, d, page, frame), d);
  }

  class BootTables {
    /** Physical memory, by word. */
    var ram: array<nat>
    /** The frame of the directory, and the next free address. */
    var d: nat
    var space: nat

    ghost predicate Building()
      reads this, ram
    {
      Layout(ram[..], d) && Dormant(ram[..], d)
    }

    /** `ke_alloc`: page-aligned pieces one after the other, in 32-bit arithmetic. */
    method KeAlloc(size: nat) returns (address: nat)
      requires space < U32 && size < U32
      modifies this`space
      ensures address == old(space) && space < U32
      ensures space == (address + AlignedPages(size) * 0x1000) % U32
      ensures address % 0x1000 == 0 ==> space % 0x1000 == 0
      ensures address + AlignedPages(size) * 0x1000 < U32 ==>
        space == address + AlignedPages(size) * 0x1000 && space >= address + size
    {
      var pages := (size + 0xFFF) % U32 / 0x1000;
      address := space;
      space := (space + pages * 0x1000) % U32;
      AlignedWrap(size, address);
    }

    /** `map_at`: rounds both addresses if either is unaligned. */
    method MapAt(physicalAddress: nat, virtualAddress: nat)
      requires Building() && virtualAddress < U32
      modifies ram
      ensures Building() && Rest(ram[..], d) == old(Rest(ram[..], d))
      ensures Space(ram[..], d) == old(Space(ram[..], d))[PageOf(virtualAddress) := PageOf(physicalAddress)]
    {
      var physical, virtual := physicalAddress, virtualAddress;
      if physical % 0x1000 != 0 || virtual % 0x1000 != 0 {
        physical := physical - physical % 0x1000;
        virtual := virtual - virtual % 0x1000;
      }
      Rounded(physicalAddress);
      Rounded(virtualAddress);
      VirtualMemory.Indices(virtual);
      PutKeeps(ram[..], d, PageOf(virtual), PageOf(physical));
      PutRefines(ram[..], d, PageOf(virtual), PageOf(physical));
      assert PointsHome(ram[..], d, VirtualMemory.PdIndex(virtual));
      Write(VirtualMemory.PdIndex(virtual), VirtualMemory.PtIndex(virtual), PageOf(physical));
      PutRest(old(ram[..]), d, PageOf(virtual), PageOf(physical));
    }

    /** The present bit of a directory entry. */
    method Wake(pd: nat)
      requires PointsHome(ram[..], d, pd)
      modifies ram
      ensures ram[..] == Woken(old(ram[..]), d, pd) && PointsHome(ram[..], d, pd)
    {
      var at := DirAt(d, pd);
      if !Present(ram[at]) {
        WakeWord(ram[at]);
        ram[at] := ram[at] + 1;
      }
    }

    method Write(pd: nat, pt: nat, frame: nat)
      requires (d + 1025) * 1024 <= ram.Length && PointsHome(ram[..], d, pd) && pd < 1024 && pt < 1024
      modifies ram
      ensures ram[..] == Put(old(ram[..]), d, pd * 1024 + pt, frame)
    {
      Wake(pd);
      TableOf(d, pd, pt);
      var table := Frame(ram[DirAt(d, pd)]);
      ram[table * 1024 + pt] := frame * 0x1000 + 1;
    }

    /** Consecutive pages, counted by index. */
    method MapPages(physical: nat, virtual: nat, pages: nat)
      requires Building() && physical % 0x1000 == 0 && virtual % 0x1000 == 0
      requires virtual + pages * 0x1000 <= U32
      modifies ram
      ensures Building() && Rest(ram[..], d) == old(Rest(ram[..], d))
      ensures Space(ram[..], d) == Range(old(Space(ram[..], d)), PageOf(virtual), PageOf(physical), pages)
    {
      var i := 0;
      ghost var was, page, frame := Space(ram[..], d), PageOf(virtual), PageOf(physical);
      while i < pages
        invariant 0 <= i <= pages && Building() && Rest(ram[..], d) == old(Rest(ram[..], d))
        invariant Space(ram[..], d) == Range(was, page, frame, i)
      {
        NthRange(was, physical, virtual, i);
        MapAt(physical + 0x1000 * i, virtual + 0x1000 * i);
        i := i + 1;
      }
    }

    /** The pages from `start` to `end`, shifted by `offset` in 32-bit arithmetic. */
    method MapUpTo(start: nat, end: nat, offset: nat)
      requires Building() && end % 0x1000 == 0 && offset % 0x1000 == 0
      modifies ram
      ensures Building() && Rest(ram[..], d) == old(Rest(ram[..], d))
      ensures Space(ram[..], d) == Range(old(Space(ram[..], d)), PageOf(start) + PageOf(offset), PageOf(start),
                                         Between(PageOf(start), PageOf(end)))
    {
      var i := start;
      ghost var k := 0;
      ghost var was, page, frame := Space(ram[..], d), PageOf(start) + PageOf(offset), PageOf(start);
      ghost var pages := Between(PageOf(start), PageOf(end));
      while i < end
        invariant i == start + k * 0x1000 && k <= pages && Building() && Rest(ram[..], d) == old(Rest(ram[..], d))
        invariant Space(ram[..], d) == Range(was, page, frame, k)
        decreases pages - k
      {
        Shifted(start, end, offset, k);
        MapShifted(i, start, end, offset, k, was);
        i, k := i + 0x1000, k + 1;
      }
      ShiftsDone(start, end, k);
    }

    /** One turn of that loop. */
    method MapShifted(i: nat, ghost start: nat, ghost end: nat, offset: nat, ghost k: nat, ghost was: map<nat, nat>)
      requires Building() && end % 0x1000 == 0 && offset % 0x1000 == 0 && i == start + k * 0x1000 < end
      requires Space(ram[..], d) == Range(was, PageOf(start) + PageOf(offset), PageOf(start), k)
      modifies ram
      ensures Rest(ram[..], d) == old(Rest(ram[..], d))
      ensures Building() && Space(ram[..], d) == Range(was, PageOf(start) + PageOf(offset), PageOf(start), k + 1)
    {
      ShiftedRange(was, start, end, offset, k);
      MapAt(i, (i + offset) % U32);
    }

    method FillDirectory()
      requires (d + 1025) * 1024 <= ram.Length
      modifies ram
      ensures Rest(ram[..], d) == old(Rest(ram[..], d))
      ensures forall i :: 0 <= i < 1024 ==> Fresh(ram[..], d, i)
    {
      var i := 0;
      while i < 1024
        invariant Rest(ram[..], d) == old(Rest(ram[..], d))
        invariant 0 <= i <= 1024 && forall k :: 0 <= k < i ==> Fresh(ram[..], d, k)
      {
        ghost var was := ram[..];
        ram[DirAt(d, i)] := (d + 1 + i) * 0x1000;
        forall k | 0 <= k < i ensures Fresh(ram[..], d, k) {
          assert Fresh(was, d, k);
        }
        i := i + 1;
      }
    }

    method ClearTables()
      requires (d + 1025) * 1024 <= ram.Length
      requires forall i :: 0 <= i < 1024 ==> Fresh(ram[..], d, i)
      modifies ram
      ensures Rest(ram[..], d) == old(Rest(ram[..], d))
      ensures forall i :: 0 <= i < 1024 ==> Fresh(ram[..], d, i)
      ensures forall x :: EntryAt(d, 0) <= x < EntryAt(d, PAGES) ==> ram[x] == 0
    {
      var x := EntryAt(d, 0);
      while x < EntryAt(d, PAGES)
        invariant EntryAt(d, 0) <= x <= EntryAt(d, PAGES)
        invariant forall y :: EntryAt(d, 0) <= y < x ==> ram[y] == 0
        invariant forall y :: 0 <= y < EntryAt(d, 0) || EntryAt(d, PAGES) <= y < ram.Length ==> ram[y] == old(ram[y])
      {
        ram[x] := 0;
        x := x + 1;
      }
      RestKept(old(ram[..]), ram[..], d);
      forall i | 0 <= i < 1024 ensures Fresh(ram[..], d, i) {
        assert Fresh(old(ram[..]), d, i);
      }
    }

    /**
      `boot_init_mem` up to the point where paging is switched on. `mbi` is the multiboot record's address,
      `regions` the memory map it leads to.
     */
    method BootInitMem(kernelStart: nat, kernelEnd: nat, highest: nat, mbi: nat, regions: seq<FB.Region>)
      requires kernelEnd % 0x1000 == 0 && highest < U32 && mbi < U32 && MappingEnds(regions)
      requires kernelEnd + (1025 + StructurePages(highest)) * 0x1000 < U32
      requires (PageOf(kernelEnd) + 1025) * 1024 <= ram.Length
      modifies this, ram
      ensures ram == old(ram) && d == PageOf(kernelEnd) && Building()
      ensures Rest(ram[..], d) == Rest(old(ram[..]), d)
      ensures Space(ram[..], d) == FinalSpace(PageOf(kernelStart), d, highest, PageOf(mbi), regions)
      ensures Ready(ram[..], d) <==> SparesWindow(d, PageOf(mbi), regions)
    {
      MapKernel(kernelStart, kernelEnd);
      MapStructures(PageOf(kernelStart), highest);
      VirtualMemory.Indices(mbi);
      MapAt(mbi, mbi);
      MapReserved(regions);
      BootReady(ram[..], PageOf(kernelStart), d, highest, PageOf(mbi), regions);
    }

    /** The reserved memory below the kernel, at its own addresses. */
    method MapReserved(regions: seq<FB.Region>)
      requires Building() && MappingEnds(regions)
      modifies ram
      ensures Rest(ram[..], d) == old(Rest(ram[..], d))
      ensures Building() && Space(ram[..], d) == Identities(old(Space(ram[..], d)), regions)
    {
      var j := 0;
      ghost var was := Space(ram[..], d);
      while j < |regions|
        invariant 0 <= j <= |regions| && Building() && Rest(ram[..], d) == old(Rest(ram[..], d))
        invariant Space(ram[..], d) == Identities(was, regions[..j])
      {
        assert regions[..j + 1][..j] == regions[..j];
        if regions[j].kind == FB.RESERVED && regions[j].baseLow < KERNEL_BOOT_VMA {
          MapRegion(regions[j]);
        }
        j := j + 1;
      }
      assert regions[..j] == regions;
    }

    method MapRegion(r: FB.Region)
      requires Building() && FB.CounterFits(r)
      modifies ram
      ensures Rest(ram[..], d) == old(Rest(ram[..], d))
      ensures Building() && Space(ram[..], d) == Turned(old(Space(ram[..], d)), r, FB.Pages(r))
    {
      var i := 0;
      ghost var k, pages, was := 0, FB.Pages(r), Space(ram[..], d);
      while i < r.lenLow
        invariant i == k * 0x1000 && k <= pages && Building() && Rest(ram[..], d) == old(Rest(ram[..], d))
        invariant Space(ram[..], d) == Turned(was, r, k)
        decreases pages - k
      {
        MapAt((r.baseLow + i) % U32, (r.baseLow + i) % U32);
        i, k := i + 0x1000, k + 1;
      }
    }

    /** The directory, the tables, and the mappings of the kernel and of the tables themselves. */
    method MapKernel(kernelStart: nat, kernelEnd: nat)
      requires kernelEnd % 0x1000 == 0
      requires kernelEnd + 1025 * 0x1000 < U32 && (PageOf(kernelEnd) + 1025) * 1024 <= ram.Length
      modifies this, ram
      ensures ram == old(ram) && d == PageOf(kernelEnd) && Building() && space == (d + 1025) * 0x1000
      ensures Rest(ram[..], d) == Rest(old(ram[..]), d)
      ensures Space(ram[..], d) == KernelSpace(PageOf(kernelStart), d)
    {
      space := kernelEnd;
      var directory := KeAlloc(0x1000);
      var tables := KeAlloc(0x40_0000);
      d := PageOf(directory);
      assert directory == d * 0x1000 && tables == (d + 1) * 0x1000 && space == (d + 1025) * 0x1000;
      FillDirectory();
      ClearTables();
      FreshEmpty(ram[..], d);
      MapUpTo(KERNEL_BOOT_VMA, kernelEnd, 0);
      MapUpTo(kernelStart, kernelEnd, KERNEL_HIGH_VMA);
      MapWindow(directory, tables);
    }

    /** The directory and the tables, at KERNEL_STRUCTURES_SPACE. */
    method MapWindow(directory: nat, tables: nat)
      requires Building() && directory == d * 0x1000 && tables == (d + 1) * 0x1000
      modifies ram
      ensures Rest(ram[..], d) == old(Rest(ram[..], d))
      ensures Building() && Space(ram[..], d) == Range(old(Space(ram[..], d)), WINDOW, d, 1025)
    {
      RangeSplit(Space(ram[..], d), WINDOW, d, 1024);
      FrameOf(d, 0);
      FrameOf(d + 1, 0);
      MapAt(directory, 0xF800_0000);
      MapPages(tables, 0xF800_1000, 1024);
    }

    /** The frame bitmap and the frame stack, above the window. */
    method MapStructures(ghost first: nat, highest: nat)
      requires Building() && highest < U32 && space == (d + 1025) * 0x1000
      requires space + StructurePages(highest) * 0x1000 < U32
      requires Space(ram[..], d) == KernelSpace(first, d)
      modifies ram, this`space
      ensures Building() && Rest(ram[..], d) == old(Rest(ram[..], d))
      ensures var bitmap := AlignedPages(BitmapBytes(highest));
        Space(ram[..], d) == Range(Range(KernelSpace(first, d), WINDOW + 1025, d + 1025, bitmap),
                                   WINDOW + 1025 + bitmap, d + 1025 + bitmap, StackBytes(highest) / 0x1000)
    {
      Sizes(highest);
      var pages := AlignedPages(BitmapBytes(highest));
      MapBitmap(highest, pages);
      MapStack(highest, pages);
    }

    method MapBitmap(highest: nat, pages: nat)
      requires Building() && highest < U32 && space == (d + 1025) * 0x1000
      requires pages == AlignedPages(BitmapBytes(highest)) <= 0x40 && space + pages * 0x1000 < U32
      modifies ram, this`space
      ensures Rest(ram[..], d) == old(Rest(ram[..], d))
      ensures Building() && space == (d + 1025 + pages) * 0x1000
      ensures Space(ram[..], d) == Range(old(Space(ram[..], d)), WINDOW + 1025, d + 1025, pages)
    {
      FrameOf(d + 1025, 0);
      var bitmap := KeAlloc(BitmapBytes(highest));
      MapPages(bitmap, 0xF840_1000, pages);
    }

    method MapStack(highest: nat, pages: nat)
      requires Building() && highest < U32 && space == (d + 1025 + pages) * 0x1000
      requires pages <= 0x40 && StackBytes(highest) / 0x1000 <= 0x400
      requires space + AlignedPages(StackBytes(highest)) * 0x1000 < U32
      modifies ram, this`space
      ensures Building() && Rest(ram[..], d) == old(Rest(ram[..], d))
      ensures Space(ram[..], d) == Range(old(Space(ram[..], d)), WINDOW + 1025 + pages, d + 1025 + pages,
                                         StackBytes(highest) / 0x1000)
    {
      FrameOf(d + 1025 + pages, 0);
      FrameOf(WINDOW + 1025 + pages, 0);
      var stack := KeAlloc(StackBytes(highest));
      MapPages(stack, 0xF840_1000 + pages * 0x1000, StackBytes(highest) / 0x1000);
    }
  }

  /** Rounding up wraps only together with the sum. */
  lemma AlignedWrap(size: nat, address: nat)
    requires size < U32
    ensures (address + (size + 0xFFF) % U32 / 0x1000 * 0x1000) % U32 == (address + AlignedPages(size) * 0x1000) % U32
  {
  }

  /** A range begins with its first page. */
  lemma {:induction false} RangeSplit(space: map<nat, nat>, page: nat, frame: nat, pages: nat)
    requires page < PAGES
    ensures Range(space, page, frame, pages + 1) == Range(space[page := frame], page + 1, frame + 1, pages)
  {
    if pages > 0 {
      RangeSplit(space, page, frame, pages - 1);
    } else {
      assert Range(space, page, frame, 0) == space;
    }
  }

  lemma TableOf(d: nat, pd: nat, pt: nat)
    requires pt < 1024
    ensures (pd * 1024 + pt) / 1024 == pd && (d + 1 + pd) * 1024 + pt == EntryAt(d, pd * 1024 + pt)
  {
  }

  lemma NoWrap(virtual: nat, i: nat)
    requires virtual % 0x1000 == 0 && virtual + i * 0x1000 < U32
    ensures (PageOf(virtual) + i) % PAGES == PageOf(virtual) + i
  {
  }

  lemma Rounded(address: nat)
    ensures PageOf(address - address % 0x1000) == PageOf(address)
  {
  }

  lemma NthPage(address: nat, i: nat)
    requires address % 0x1000 == 0
    ensures PageOf(address + 0x1000 * i) == PageOf(address) + i
  {
  }

  lemma NthRange(space: map<nat, nat>, physical: nat, virtual: nat, i: nat)
    requires physical % 0x1000 == 0 && virtual % 0x1000 == 0 && virtual + i * 0x1000 < U32
    ensures Range(space, PageOf(virtual), PageOf(physical), i + 1) ==
      Range(space, PageOf(virtual), PageOf(physical), i)
        [PageOf(virtual + 0x1000 * i) := PageOf(physical + 0x1000 * i)]
  {
    NthPage(virtual, i);
    NthPage(physical, i);
    NoWrap(virtual, i);
  }

  lemma Shifted(start: nat, end: nat, offset: nat, k: nat)
    requires end % 0x1000 == 0 && offset % 0x1000 == 0 && start + k * 0x1000 < end
    ensures k < Between(PageOf(start), PageOf(end)) && PageOf(start + k * 0x1000) == PageOf(start) + k
    ensures PageOf((start + k * 0x1000 + offset) % U32) == (PageOf(start) + PageOf(offset) + k) % PAGES
  {
    NthOf(start, k);
    NthOf(offset, 0);
    var sum := PageOf(start) + PageOf(offset) + k;
    var rest := start % 0x1000;
    assert start + k * 0x1000 + offset == sum * 0x1000 + rest;
    Wrapped(sum, rest);
  }

  lemma NthOf(start: nat, k: nat)
    ensures PageOf(start + k * 0x1000) == PageOf(start) + k
  {
  }

  lemma ShiftedRange(space: map<nat, nat>, start: nat, end: nat, offset: nat, k: nat)
    requires end % 0x1000 == 0 && offset % 0x1000 == 0 && start + k * 0x1000 < end
    ensures Range(space, PageOf(start) + PageOf(offset), PageOf(start), k + 1) ==
      Range(space, PageOf(start) + PageOf(offset), PageOf(start), k)
        [PageOf((start + k * 0x1000 + offset) % U32) := PageOf(start + k * 0x1000)]
  {
    Shifted(start, end, offset, k);
  }

  /** 32-bit wrap of an address is 20-bit wrap of its page number. */
  lemma Wrapped(page: nat, rest: nat)
    requires rest < 0x1000
    ensures PageOf((page * 0x1000 + rest) % U32) == page % PAGES
  {
    var high, low := page / PAGES, page % PAGES;
    assert page * 0x1000 + rest == high * U32 + (low * 0x1000 + rest);
    Modulo(high, low * 0x1000 + rest);
    FrameOf(low, rest);
  }

  lemma Modulo(high: nat, low: nat)
    requires low < U32
    ensures (high * U32 + low) % U32 == low
  {
  }

  lemma ShiftsDone(start: nat, end: nat, k: nat)
    requires end % 0x1000 == 0 && start + k * 0x1000 >= end && k <= Between(PageOf(start), PageOf(end))
    ensures k == Between(PageOf(start), PageOf(end))
  {
  }
}
