/** The frame allocator in place: a packed bitmap of 2-bit fields beside a stack of addresses. */
module FrameBitmap {
  import opened FramePool

  /** Shift counts of the sixteen fields of a word, the first field in the top bits. */
  const SHIFTS: seq<bv32> := [30, 28, 26, 24, 22, 20, 18, 16, 14, 12, 10, 8, 6, 4, 2, 0]

  function Shift(n: nat): bv32 {
    (30 - 2 * (n % 16)) as bv32
  }

  function Field(word: bv32, shift: bv32): bv32
    requires shift <= 30
  {
    (word >> shift) & 3
  }

  function WithField(word: bv32, shift: bv32, value: bv32): bv32
    requires shift <= 30
  {
    (word & !(3 << shift)) | (value << shift)
  }

  function Code(status: PageStatus): (c: bv32)
    ensures c <= 3
  {
    match status
    case FREE => 0
    case ALLOCATED => 1
    case SYSTEM => 2
    case ACPI => 3
  }

  function Decode(code: bv32): PageStatus {
    if code == 0 then FREE else if code == 1 then ALLOCATED else if code == 2 then SYSTEM else ACPI
  }

  /** Writing one even field leaves every other even field alone. */
  lemma FieldOfWithField(word: bv32, a: bv32, b: bv32, value: bv32)
    requires a <= 30 && b <= 30 && a & 1 == 0 && b & 1 == 0 && value <= 3
    ensures Field(WithField(word, a, value), b) == if a == b then value else Field(word, b)
  {
  }

  lemma ShiftIs(n: nat)
    ensures Shift(n) == SHIFTS[n % 16] && Shift(n) <= 30 && Shift(n) & 1 == 0
  {
    var j := n % 16;
    if j == 0 { assert Shift(n) == 30; }
    else if j == 1 { assert Shift(n) == 28; }
    else if j == 2 { assert Shift(n) == 26; }
    else if j == 3 { assert Shift(n) == 24; }
    else if j == 4 { assert Shift(n) == 22; }
    else if j == 5 { assert Shift(n) == 20; }
    else if j == 6 { assert Shift(n) == 18; }
    else if j == 7 { assert Shift(n) == 16; }
    else if j == 8 { assert Shift(n) == 14; }
    else if j == 9 { assert Shift(n) == 12; }
    else if j == 10 { assert Shift(n) == 10; }
    else if j == 11 { assert Shift(n) == 8; }
    else if j == 12 { assert Shift(n) == 6; }
    else if j == 13 { assert Shift(n) == 4; }
    else if j == 14 { assert Shift(n) == 2; }
    else { assert Shift(n) == 0; }
  }

  lemma ShiftsDistinct(n: nat, m: nat)
    requires n % 16 != m % 16
    ensures Shift(n) != Shift(m)
  {
    ShiftIs(n);
    ShiftIs(m);
    TableDistinct(n % 16, m % 16);
  }

  lemma TableDistinct(i: nat, j: nat)
    requires i < 16 && j < 16 && i != j
    ensures SHIFTS[i] != SHIFTS[j]
  {
  }

  /** Frame `n`'s status in its packed word. */
  function Unpack(word: bv32, n: nat): PageStatus {
    ShiftIs(n);
    Decode(Field(word, Shift(n)))
  }

  function Pack(word: bv32, n: nat, status: PageStatus): bv32 {
    ShiftIs(n);
    WithField(word, Shift(n), Code(status))
  }

  /** Packing one frame's status changes that frame's field and no other's. */
  lemma UnpackPack(word: bv32, n: nat, m: nat, status: PageStatus)
    ensures Unpack(Pack(word, n, status), m) == if n % 16 == m % 16 then status else Unpack(word, m)
  {
    ShiftIs(n);
    ShiftIs(m);
    FieldOfWithField(word, Shift(n), Shift(m), Code(status));
    if n % 16 != m % 16 {
      ShiftsDistinct(n, m);
    }
  }

  /** The statuses in the order of their codes. */
  const STATUSES: seq<PageStatus> := [FREE, ALLOCATED, SYSTEM, ACPI]

  /** The top two bits after `k` frames were shifted out at the top. */
  function FromTop(word: bv32, k: nat): (c: bv32)
    ensures c <= 3
    decreases k
  {
    if k == 0 then word >> 30 else FromTop(word << 2, k - 1)
  }

  /** Sixteen frames to a word, two bits each, the first frame in the top bits, statuses numbered in order. */
  lemma UnpackFromTop(word: bv32, n: nat)
    ensures Unpack(word, n) == STATUSES[FromTop(word, n % 16) as nat]
  {
    ShiftIs(n);
    FieldFromTop(word, n % 16);
    DecodeIs(FromTop(word, n % 16));
  }

  lemma DecodeIs(code: bv32)
    requires code <= 3
    ensures Decode(code) == STATUSES[code as nat]
  {
    assert code == 0 || code == 1 || code == 2 || code == 3;
  }

  lemma {:induction false} FieldFromTop(word: bv32, k: nat)
    requires k < 16
    ensures FromTop(word, k) == Field(word, SHIFTS[k])
    decreases k
  {
    if k == 0 {
      TopField(word);
    } else {
      FieldFromTop(word << 2, k - 1);
      NextShift(k);
      FieldMoves(word, SHIFTS[k]);
    }
  }

  lemma TopField(word: bv32)
    ensures word >> 30 == Field(word, 30)
  {
  }

  lemma NextShift(k: nat)
    requires 0 < k < 16
    ensures SHIFTS[k - 1] == SHIFTS[k] + 2 && SHIFTS[k] <= 28
  {
  }

  lemma FieldMoves(word: bv32, shift: bv32)
    requires shift <= 28
    ensures Field(word << 2, shift + 2) == Field(word, shift)
  {
  }

  lemma UnpackZero(n: nat)
    ensures Unpack(0, n) == FREE
  {
    ShiftIs(n);
    ZeroField(Shift(n));
  }

  lemma ZeroField(shift: bv32)
    requires shift <= 30
    ensures Field(0, shift) == 0
  {
  }
}

module KernelKalloc {
  import opened Common
  import opened FramePool
  import opened FrameBoot
  import opened FrameBitmap

  class FrameAllocator {
    var bitmap: array<bv32>
    /** Cell 0 is never used: the pointer moves before the first write. */
    var stack: array<nat>
    var stackPointer: nat
    var acpiAddress: nat

    constructor (words: nat, cells: nat)
      requires cells > 0
      ensures Valid() && fresh(bitmap) && fresh(stack) && bitmap.Length == words && stack.Length == cells
      ensures FreeFrames() == [] && Cleared()
    {
      bitmap := new bv32[words](i => 0);
      stack := new nat[cells];
      stackPointer, acpiAddress := 0, 0;
    }

    ghost predicate Valid()
      reads `bitmap, `stack, `stackPointer
    {
      stackPointer < stack.Length && (bitmap as object) != (stack as object)
    }

    predicate Tracks(n: nat)
      reads `bitmap
    {
      n / 16 < bitmap.Length
    }

    /** The bitmap reaches every frame the loop over a region touches. */
    ghost predicate TracksAll(r: Region, turns: nat)
      reads `bitmap
    {
      forall k: nat :: k < turns ==> Tracks(Frame(r, k))
    }

    predicate Cleared()
      reads `bitmap, bitmap
    {
      forall i :: 0 <= i < bitmap.Length ==> bitmap[i] == 0
    }

    ghost function Statuses(): (s: seq<PageStatus>)
      reads `bitmap, bitmap
      ensures |s| == 16 * bitmap.Length
      ensures forall n :: 0 <= n < |s| ==> s[n] == Unpack(bitmap[n / 16], n)
    {
      var words := bitmap[..];
      seq(16 * |words|, n requires 0 <= n < 16 * |words| => Unpack(words[n / 16], n))
    }

    ghost function FreeFrames(): seq<nat>
      requires Valid()
      reads `bitmap, `stack, `stackPointer, stack
    {
      stack[1..stackPointer + 1]
    }

    ghost function View(): Pool
      requires Valid()
      reads this, bitmap, stack
    {
      Pool(FreeFrames(), Statuses())
    }

    method BitmapGet(n: nat) returns (status: PageStatus)
      requires Tracks(n)
      ensures status == Statuses()[n]
    {
      status := Unpack(bitmap[n / 16], n);
    }

    /** Exactly one frame's status changes, sixteen to a word as they are. */
    method BitmapSet(n: nat, status: PageStatus)
      requires Tracks(n)
      modifies bitmap
      ensures Statuses() == old(Statuses())[n := status]
    {
      ghost var word := bitmap[n / 16];
      bitmap[n / 16] := Pack(bitmap[n / 16], n, status);
      forall m | 0 <= m < 16 * bitmap.Length
        ensures Statuses()[m] == if m == n then status else old(Statuses()[m])
      {
        UnpackPack(word, n, m, status);
        assert m / 16 == n / 16 && m % 16 == n % 16 ==> m == n;
      }
    }

    method Push(address: nat)
      requires Valid() && stackPointer + 1 < stack.Length
      modifies this`stackPointer, stack
      ensures Valid() && FreeFrames() == old(FreeFrames()) + [address]
    {
      stackPointer := stackPointer + 1;
      stack[stackPointer] := address;
    }

    method Pop() returns (address: nat)
      requires Valid() && FreeFrames() != []
      modifies this`stackPointer
      ensures Valid() && old(FreeFrames()) == FreeFrames() + [address]
    {
      address := stack[stackPointer];
      stackPointer := stackPointer - 1;
    }

    method FreePages() returns (n: nat)
      requires Valid()
      ensures n == |FreeFrames()|
    {
      n := stackPointer;
    }

    method KAlloc(status: PageStatus) returns (x: nat)
      requires Valid() && CanTake(View())
      modifies this`stackPointer, bitmap
      ensures Valid() && x == old(Top(View())) && View() == Take(old(View()), status)
    {
      x := Pop();
      ghost var left := FreeFrames();
      assert left == old(FreeFrames())[..|left|];
      BitmapSet(x / 0x1000, status);
      assert FreeFrames() == left;
      assert Statuses() == old(Statuses())[x / 0x1000 := status];
    }

    method KFree(x: nat)
      requires Valid() && CanGive(View(), x) && stackPointer + 1 < stack.Length
      modifies this`stackPointer, stack, bitmap
      ensures Valid() && View() == Give(old(View()), x)
    {
      Push(x);
      BitmapSet(x / 0x1000, FREE);
    }

    /** While booting a frame is SYSTEM if it is marked and FREE otherwise. */
    ghost predicate AsMarked(n: nat, marks: set<nat>)
      requires Tracks(n)
      reads `bitmap, bitmap
    {
      Statuses()[n] == if n in marks then SYSTEM else FREE
    }

    ghost predicate Marked(marks: set<nat>)
      reads `bitmap, bitmap
    {
      forall n: nat {:trigger AsMarked(n, marks)} :: Tracks(n) ==> AsMarked(n, marks)
    }

    /** The loops over the memory map. `regions` are its entries in order. */
    method InitKalloc(regions: seq<Region>, kernel: Kernel, mbi: nat)
      requires Valid() && FreeFrames() == [] && Cleared()
      requires Covered(regions, mbi, 16 * bitmap.Length) && |Pushes(regions, kernel)| < stack.Length
      requires LoopsEnd(regions)
      modifies this`stackPointer, this`acpiAddress, stack, bitmap
      ensures Valid() && View() == Booted(regions, kernel, mbi, 16 * bitmap.Length)
      ensures acpiAddress == AcpiTables(regions, old(acpiAddress))
    {
      forall n: nat | Tracks(n) ensures AsMarked(n, {}) {
        UnpackZero(n);
      }
      Mark(mbi / 0x1000, {});
      assert {} + {mbi / 0x1000} == Marks(regions[..0], kernel, mbi);
      var j := 0;
      while j < |regions|
        invariant 0 <= j <= |regions| && Valid()
        invariant FreeFrames() == Pushes(regions[..j], kernel) && Marked(Marks(regions[..j], kernel, mbi))
        invariant acpiAddress == AcpiTables(regions[..j], old(acpiAddress))
      {
        PushesGrow(regions, kernel, j + 1);
        assert regions[..j + 1][..j] == regions[..j] && regions[..j + 1][j] == regions[j];
        Region(regions, kernel, mbi, j);
        j := j + 1;
      }
      assert regions[..j] == regions;
      Finish(regions, kernel, mbi);
    }

    lemma Finish(regions: seq<Region>, kernel: Kernel, mbi: nat)
      requires Valid() && FreeFrames() == Pushes(regions, kernel) && Marked(Marks(regions, kernel, mbi))
      ensures View() == Booted(regions, kernel, mbi, 16 * bitmap.Length)
    {
      forall n | 0 <= n < 16 * bitmap.Length
        ensures Statuses()[n] == Booted(regions, kernel, mbi, 16 * bitmap.Length).status[n]
      {
        assert AsMarked(n, Marks(regions, kernel, mbi));
      }
    }

    /** One entry of the memory map. */
    method Region(regions: seq<Region>, kernel: Kernel, mbi: nat, j: nat)
      requires Valid() && j < |regions|
      requires Covered(regions, mbi, 16 * bitmap.Length) && LoopsEnd(regions)
      requires |Pushes(regions[..j], kernel)| + |PushesOf(regions[j], kernel, Pages(regions[j]))| < stack.Length
      requires FreeFrames() == Pushes(regions[..j], kernel) && Marked(Marks(regions[..j], kernel, mbi))
      modifies this`stackPointer, this`acpiAddress, stack, bitmap
      ensures Valid() && FreeFrames() == Pushes(regions[..j], kernel) + PushesOf(regions[j], kernel, Pages(regions[j]))
      ensures Marked(Marks(regions[..j], kernel, mbi) + MarksOf(regions[j], kernel, Pages(regions[j])))
      ensures acpiAddress == if HasAcpi(regions[j]) then regions[j].baseLow else old(acpiAddress)
    {
      var r := regions[j];
      ghost var marks := Marks(regions[..j], kernel, mbi);
      if r.baseHigh != 0 {
        Untouched(r, kernel, Pages(r));
        assert marks + MarksOf(r, kernel, Pages(r)) == marks;
        return;
      }
      forall k: nat | k < Pages(r) && (IsFree(r) || IsReserved(r)) ensures Tracks(Frame(r, k)) {
        AddrPage(r, k);
      }
      if r.kind == FREE_MEMORY {
        TurnsArePages(r);
        FreeRegion(r, kernel, Pages(r), marks);
      } else if r.kind == RESERVED && r.baseLow < KERNEL_BOOT_VMA {
        TurnsArePages(r);
        ReservedRegion(r, kernel, Pages(r), marks);
      } else {
        Untouched(r, kernel, Pages(r));
        assert marks + MarksOf(r, kernel, Pages(r)) == marks;
        if r.kind == ACPI_TABLES {
          acpiAddress := r.baseLow;
        }
      }
    }

    /** Usable memory: frames outside the kernel are pushed, those inside marked. */
    method FreeRegion(r: Region, kernel: Kernel, ghost turns: nat, ghost marks: set<nat>)
      requires Valid() && IsFree(r) && Turns(r, turns)
      requires TracksAll(r, turns)
      requires |FreeFrames()| + |PushesOf(r, kernel, turns)| < stack.Length && Marked(marks)
      modifies this`stackPointer, stack, bitmap
      ensures Valid() && FreeFrames() == old(FreeFrames()) + PushesOf(r, kernel, turns)
      ensures Marked(marks + MarksOf(r, kernel, turns))
    {
      var i := 0;
      ghost var k: nat := 0;
      ghost var before := FreeFrames();
      assert marks + MarksOf(r, kernel, 0) == marks;
      while i < r.lenLow
        invariant i == k * 0x1000 && k <= turns && Valid()
        invariant FreeFrames() == before + PushesOf(r, kernel, k) && Marked(marks + MarksOf(r, kernel, k))
        decreases turns - k
      {
        FreeStep(r, kernel, i, k, turns, before, marks);
        i, k := i + 0x1000, k + 1;
      }
      assert k == turns;
    }

    method FreeStep(r: Region, kernel: Kernel, i: nat, ghost k: nat, ghost turns: nat, ghost before: seq<nat>,
                    ghost marks: set<nat>)
      requires Valid() && IsFree(r) && i == k * 0x1000 && k < turns && TracksAll(r, turns)
      requires |before| + |PushesOf(r, kernel, turns)| < stack.Length
      requires FreeFrames() == before + PushesOf(r, kernel, k) && Marked(marks + MarksOf(r, kernel, k))
      modifies this`stackPointer, stack, bitmap
      ensures Valid()
      ensures FreeFrames() == before + PushesOf(r, kernel, k + 1) && Marked(marks + MarksOf(r, kernel, k + 1))
    {
      ghost var now := marks + MarksOf(r, kernel, k);
      PushesOfGrow(r, kernel, k + 1, turns);
      FreeTurn(r, kernel, i, k, now);
      assert now + MarkAt(r, kernel, k) == marks + MarksOf(r, kernel, k + 1);
    }

    /** One turn of that loop: a push or a mark. */
    method FreeTurn(r: Region, kernel: Kernel, i: nat, ghost k: nat, ghost marks: set<nat>)
      requires Valid() && IsFree(r) && r.baseLow + i == Addr(r, k) && Tracks(Frame(r, k))
      requires |FreeFrames()| + |PushAt(r, kernel, k)| < stack.Length && Marked(marks)
      modifies this`stackPointer, stack, bitmap
      ensures Valid() && FreeFrames() == old(FreeFrames()) + PushAt(r, kernel, k)
      ensures Marked(marks + MarkAt(r, kernel, k))
    {
      if r.baseLow + i < kernel.start || r.baseLow + i >= kernel.end {
        Push(r.baseLow + i);
        assert marks + MarkAt(r, kernel, k) == marks;
      } else {
        var n := (r.baseLow + i) / 0x1000;
        assert MarkAt(r, kernel, k) == {n};
        Mark(n, marks);
      }
    }

    method Mark(n: nat, ghost marks: set<nat>)
      requires Tracks(n) && Marked(marks)
      modifies bitmap
      ensures Marked(marks + {n})
    {
      BitmapSet(n, SYSTEM);
      forall m: nat | Tracks(m) ensures AsMarked(m, marks + {n}) {
        assert old(AsMarked(m, marks));
      }
    }

    /** Reserved memory below the kernel: every frame is marked. */
    method ReservedRegion(r: Region, kernel: Kernel, ghost turns: nat, ghost marks: set<nat>)
      requires Valid() && IsReserved(r) && Turns(r, turns)
      requires TracksAll(r, turns) && Marked(marks)
      modifies bitmap
      ensures PushesOf(r, kernel, turns) == [] && Marked(marks + MarksOf(r, kernel, turns))
    {
      var i := 0;
      ghost var k: nat := 0;
      ghost var now := marks;
      while i < r.lenLow
        invariant i == k * 0x1000 && k <= turns
        invariant PushesOf(r, kernel, k) == []
        invariant now == marks + MarksOf(r, kernel, k) && Marked(now)
        decreases turns - k
      {
        var n := (r.baseLow + i) / 0x1000;
        assert MarkAt(r, kernel, k) == {n};
        Mark(n, now);
        now := now + {n};
        i, k := i + 0x1000, k + 1;
      }
      assert k == turns;
    }
  }

  /** The loop over a region takes this many turns. */
  predicate Turns(r: Region, turns: nat) {
    CounterFits(r) && (turns as int - 1) * 0x1000 < r.lenLow <= turns * 0x1000
  }

  lemma TurnsArePages(r: Region)
    requires CounterFits(r)
    ensures Turns(r, Pages(r))
  {
  }

  /** The loops over the regions end. */
  predicate LoopsEnd(regions: seq<Region>) {
    forall j :: 0 <= j < |regions| && (IsFree(regions[j]) || IsReserved(regions[j])) ==> CounterFits(regions[j])
  }

  /** An entry of another kind, or above 4 GiB, changes neither stack nor bitmap. */
  lemma {:induction false} Untouched(r: Region, kernel: Kernel, k: nat)
    requires !IsFree(r) && !IsReserved(r)
    ensures PushesOf(r, kernel, k) == [] && MarksOf(r, kernel, k) == {}
  {
    if k > 0 {
      Untouched(r, kernel, k - 1);
    }
  }

  lemma {:induction false} PushesOfGrow(r: Region, kernel: Kernel, k: nat, n: nat)
    requires k <= n
    ensures |PushesOf(r, kernel, k)| <= |PushesOf(r, kernel, n)|
    decreases n
  {
    if k < n {
      PushesOfGrow(r, kernel, k, n - 1);
    }
  }

  lemma {:induction false} PushesGrow(regions: seq<Region>, kernel: Kernel, j: nat)
    requires j <= |regions|
    ensures |Pushes(regions[..j], kernel)| <= |Pushes(regions, kernel)|
    decreases |regions|
  {
    if j < |regions| {
      var before := regions[..|regions| - 1];
      assert before[..j] == regions[..j];
      PushesGrow(before, kernel, j);
    } else {
      assert regions[..j] == regions;
    }
  }
}
