/** `map`, `remap`, `getPhysicalAddress` and `init_paging`, which reach the tables by virtual address. */
module VirtualMemory {
  import opened Common
  import opened Paging

  /** Word number of the directory's virtual address. */
  const DIRECTORY := 0x3E00_0000

  /** Four blanks: the word `init_paging` fills table 0 with. */
  const BLANKS := 0x2020_2020

  /** Bit 0, `present`, and bit 5, `acc`, cleared among the twelve low bits of an entry. */
  function ClearBits(bits: nat): (b: nat)
    requires bits < 0x1000
    ensures b <= bits
  {
    bits - bits % 2 - (if bits / 32 % 2 == 1 then 32 else 0)
  }

  /** The value of bit `k` in a word. */
  function Worth(k: nat): nat {
    if k == 0 then 1 else 2 * Worth(k - 1)
  }

  function Without(n: nat, j: nat): int {
    n - if Bit(n, j) == 1 then Worth(j) else 0
  }

  /** Taking away what bit `j` is worth clears this bit and no other. */
  lemma {:induction false} WithoutBit(n: nat, j: nat, k: nat)
    ensures Without(n, j) >= 0 && Bit(Without(n, j), k) == if k == j then 0 else Bit(n, k)
    decreases j
  {
    if j > 0 {
      var b, r := n % 2, n / 2;
      WithoutBit(r, j - 1, if k == 0 then 0 else k - 1);
      assert Without(n, j) == b + 2 * Without(r, j - 1);
      Halved(Without(n, j), b, Without(r, j - 1));
    } else {
      Halved(Without(n, 0), 0, n / 2);
    }
  }

  lemma Halved(n: int, b: nat, r: int)
    requires n == b + 2 * r && b < 2
    ensures n / 2 == r && n % 2 == b
  {
  }

  lemma FifthBit(n: nat)
    ensures Bit(n, 5) == n / 32 % 2 && Worth(5) == 32
  {
    assert n / 2 / 2 == n / 4 && n / 4 / 2 == n / 8 && n / 8 / 2 == n / 16 && n / 16 / 2 == n / 32;
    assert Bit(n, 5) == Bit(n / 2, 4) == Bit(n / 4, 3) == Bit(n / 8, 2) == Bit(n / 16, 1) == Bit(n / 32, 0);
  }

  /** Exactly the bits `present` and `acc` are cleared. */
  lemma ClearBitsExact(bits: nat, k: nat)
    requires bits < 0x1000
    ensures Bit(ClearBits(bits), k) == if k == 0 || k == 5 then 0 else Bit(bits, k)
  {
    FifthBit(bits);
    WithoutBit(bits, 5, 0);
    WithoutBit(bits, 5, k);
    WithoutBit(Without(bits, 5), 0, k);
  }

  function ClearFlags(word: nat): nat {
    Frame(word) * 0x1000 + ClearBits(word % 0x1000)
  }

  /** A word of memory after `init_paging`. */
  function LowWord(m: Ram, d: nat, x: nat): nat
    requires x < |m|
  {
    if EntryAt(d, 0) <= x < EntryAt(d, 1024) then BLANKS
    else if x == DirAt(d, 0) then ClearFlags(m[x])
    else m[x]
  }

  function LowCleared(m: Ram, d: nat): Ram {
    seq(|m|, x requires 0 <= x < |m| => LowWord(m, d, x))
  }

  lemma ClearedFlags(word: nat)
    ensures !Present(ClearFlags(word)) && Frame(ClearFlags(word)) == Frame(word)
  {
    var bits := word % 0x1000;
    PresentOf(Frame(word), ClearBits(bits));
    FrameOf(Frame(word), ClearBits(bits));
    ClearedBits(bits);
  }

  lemma ClearedBits(bits: nat)
    requires bits < 0x1000
    ensures !Present(ClearBits(bits))
  {
  }

  /** Table 0 is emptied and its directory entry cleared: the low 4 MiB are unmapped, all else stays. */
  lemma LowClearedWalk(m: Ram, d: nat, page: nat)
    requires Ready(m, d) && page < PAGES
    ensures Layout(LowCleared(m, d), d) && Asleep(LowCleared(m, d), d, page)
    ensures Walk(LowCleared(m, d), d, page) == if page < 1024 then None else Walk(m, d, page)
  {
    var n := LowCleared(m, d);
    ClearedFlags(m[DirAt(d, 0)]);
    forall i | 0 <= i < 1024 ensures PointsHome(n, d, i) {
      assert PointsHome(m, d, i);
    }
    assert Asleep(m, d, page);
    WalkIs(m, d, page);
    WalkIs(n, d, page);
  }

  lemma LowClearedRefines(m: Ram, d: nat)
    requires Ready(m, d)
    ensures Ready(LowCleared(m, d), d)
    ensures Space(LowCleared(m, d), d) == map page | page in Space(m, d) && page >= 1024 :: Space(m, d)[page]
  {
    var n := LowCleared(m, d);
    LowClearedWalk(m, d, 0);
    forall page | 0 <= page < PAGES
      ensures Asleep(n, d, page) && Walk(n, d, page) == if page < 1024 then None else Walk(m, d, page)
    {
      LowClearedWalk(m, d, page);
    }
    forall k | 0 <= k <= 1024 ensures Shows(n, d, k) {
      assert Shows(m, d, k);
    }
  }

  lemma WokenWindow(m: Ram, d: nat, i: nat)
    requires Ready(m, d) && i < 1024
    ensures Ready(Woken(m, d, i), d)
  {
    WokenKeeps(m, d, i);
    forall k | 0 <= k <= 1024 ensures Shows(Woken(m, d, i), d, k) {
      assert Shows(m, d, k);
      WokenWalk(m, d, i, WINDOW + k);
    }
  }

  /** The two indices the code takes from an address make up its page number. */
  function PdIndex(address: nat): nat {
    address / 0x40_0000
  }

  function PtIndex(address: nat): nat {
    address / 0x1000 % 0x400
  }

  lemma Indices(address: nat)
    requires address < 0x1_0000_0000
    ensures PdIndex(address) < 1024 && PtIndex(address) < 1024 && PageOf(address) < PAGES
    ensures PdIndex(address) * 1024 + PtIndex(address) == PageOf(address)
  {
  }

  class PageTables {
    /** Physical memory, by word. */
    var ram: array<nat>
    /** The frame of the page directory. */
    var cr3: nat

    ghost predicate Valid()
      reads this, ram
    {
      Ready(ram[..], cr3)
    }

    /** A read or write through the page walk. */
    method Load(word: nat) returns (value: nat)
      requires Resolve(ram[..], cr3, word).Some? && Resolve(ram[..], cr3, word).value < ram.Length
      ensures value == ram[Resolve(ram[..], cr3, word).value]
    {
      value := ram[Resolve(ram[..], cr3, word).value];
    }

    method Store(word: nat, value: nat)
      requires Resolve(ram[..], cr3, word).Some? && Resolve(ram[..], cr3, word).value < ram.Length
      modifies ram
      ensures ram[..] == old(ram[..])[old(Resolve(ram[..], cr3, word).value) := value]
    {
      ram[Resolve(ram[..], cr3, word).value] := value;
    }

    /** Where table `i` begins in the window. */
    function GetTableEntry(i: nat): nat {
      DIRECTORY + 1024 + i * 1024
    }

    method LoadDirectory(i: nat) returns (value: nat)
      requires Valid() && i < 1024
      ensures value == ram[DirAt(cr3, i)]
    {
      WindowWord(ram[..], cr3, i);
      value := Load(DIRECTORY + i);
    }

    method StoreDirectory(i: nat, value: nat)
      requires Valid() && i < 1024
      modifies ram
      ensures ram[..] == old(ram[..])[DirAt(cr3, i) := value]
    {
      WindowWord(ram[..], cr3, i);
      Store(DIRECTORY + i, value);
    }

    method LoadEntry(i: nat, j: nat) returns (value: nat)
      requires Valid() && i < 1024 && j < 1024
      ensures value == ram[EntryAt(cr3, i * 1024 + j)]
    {
      WindowWord(ram[..], cr3, 1024 + i * 1024 + j);
      value := Load(GetTableEntry(i) + j);
    }

    method StoreEntry(i: nat, j: nat, value: nat)
      requires Valid() && i < 1024 && j < 1024
      modifies ram
      ensures ram[..] == old(ram[..])[EntryAt(cr3, i * 1024 + j) := value]
    {
      WindowWord(ram[..], cr3, 1024 + i * 1024 + j);
      Store(GetTableEntry(i) + j, value);
    }

    /** Setting `present` where it is clear, then writing the entry: shared by `map` and `remap`. */
    method Enter(pd: nat, pt: nat, frame: nat)
      requires Valid() && pd < 1024 && pt < 1024
      modifies ram
      ensures ram[..] == Put(old(ram[..]), cr3, pd * 1024 + pt, frame)
    {
      var entry := LoadDirectory(pd);
      WokenWindow(ram[..], cr3, pd);
      if !Present(entry) {
        StoreDirectory(pd, entry + 1);
      }
      assert ram[..] == Woken(old(ram[..]), cr3, pd);
      StoreEntry(pd, pt, frame * 0x1000 + 1);
    }

    method Map(physical: nat, virtual: nat)
      requires Valid() && physical < 0x1_0000_0000 && virtual < 0x1_0000_0000
      requires physical % 0x1000 == 0 && virtual % 0x1000 == 0
      modifies ram
      ensures ram[..] == Put(old(ram[..]), cr3, PageOf(virtual), PageOf(physical))
      ensures Space(ram[..], cr3) == old(Space(ram[..], cr3))[PageOf(virtual) := PageOf(physical)]
      ensures Valid() <==> LeavesWindow(cr3, PageOf(virtual), PageOf(physical))
    {
      Indices(virtual);
      var pd, pt := PdIndex(virtual), PtIndex(virtual);
      PutRefines(ram[..], cr3, PageOf(virtual), PageOf(physical));
      PutWindow(ram[..], cr3, PageOf(virtual), PageOf(physical));
      Enter(pd, pt, PageOf(physical));
    }

    method Remap(source: nat, target: nat)
      requires Valid() && source < 0x1_0000_0000 && target < 0x1_0000_0000
      requires source % 0x1000 == 0 && target % 0x1000 == 0
      requires PageOf(source) in Space(ram[..], cr3)
      modifies ram
      ensures ram[..] == Put(old(ram[..]), cr3, PageOf(target), old(Space(ram[..], cr3))[PageOf(source)])
      ensures Space(ram[..], cr3) ==
        old(Space(ram[..], cr3))[PageOf(target) := old(Space(ram[..], cr3))[PageOf(source)]]
      ensures Valid() <==> LeavesWindow(cr3, PageOf(target), old(Space(ram[..], cr3))[PageOf(source)])
    {
      Indices(source);
      Indices(target);
      var frame := FrameBehind(PdIndex(source), PtIndex(source));
      PutRefines(ram[..], cr3, PageOf(target), frame);
      PutWindow(ram[..], cr3, PageOf(target), frame);
      Enter(PdIndex(target), PtIndex(target), frame);
    }

    /** The frame a mapped page's entry holds. */
    method FrameBehind(pd: nat, pt: nat) returns (frame: nat)
      requires Valid() && pd < 1024 && pt < 1024 && pd * 1024 + pt in Space(ram[..], cr3)
      ensures frame == Space(ram[..], cr3)[pd * 1024 + pt]
    {
      WalkIs(ram[..], cr3, pd * 1024 + pt);
      var entry := LoadEntry(pd, pt);
      frame := Frame(entry);
    }

    /** The frame's address, or 0 for a page that is not mapped (or is mapped to frame 0). */
    method GetPhysicalAddress(virtual: nat) returns (physical: nat)
      requires Valid() && virtual < 0x1_0000_0000 && virtual % 0x1000 == 0
      ensures physical ==
        var space := Space(ram[..], cr3);
        if PageOf(virtual) in space then space[PageOf(virtual)] * 0x1000 else 0
    {
      Indices(virtual);
      WalkIs(ram[..], cr3, PageOf(virtual));
      var pd, pt := PdIndex(virtual), PtIndex(virtual);
      var entry := LoadDirectory(pd);
      if !Present(entry) {
        return 0;
      }
      entry := LoadEntry(pd, pt);
      if !Present(entry) {
        return 0;
      }
      physical := Frame(entry) * 0x1000;
    }

    /** Blanks over table 0, then the flags of its directory entry. */
    method InitPaging()
      requires Valid()
      modifies ram
      ensures Valid()
      ensures var space := old(Space(ram[..], cr3));
        Space(ram[..], cr3) == map page | page in space && page >= 1024 :: space[page]
      ensures ram[DirAt(cr3, 0)] == ClearFlags(old(ram[DirAt(cr3, 0)]))
      ensures forall x :: 0 <= x < ram.Length && x != DirAt(cr3, 0) && !(EntryAt(cr3, 0) <= x < EntryAt(cr3, 1024)) ==>
        ram[x] == old(ram[x])
    {
      var j := 0;
      while j < 1024
        invariant 0 <= j <= 1024 && ram[..] == Blanked(old(ram[..]), cr3, j)
      {
        BlankedReady(old(ram[..]), cr3, j);
        StoreEntry(0, j, BLANKS);
        j := j + 1;
      }
      BlankedReady(old(ram[..]), cr3, 1024);
      var entry := LoadDirectory(0);
      StoreDirectory(0, ClearFlags(entry));
      assert ram[..] == LowCleared(old(ram[..]), cr3);
      assert forall x :: 0 <= x < ram.Length ==> ram[x] == LowWord(old(ram[..]), cr3, x);
      LowClearedRefines(old(ram[..]), cr3);
    }
  }

  /** Memory after `j` turns of the blanking. */
  function Blanked(m: Ram, d: nat, j: nat): Ram {
    seq(|m|, x requires 0 <= x < |m| => BlankWord(m, d, j, x))
  }

  function BlankWord(m: Ram, d: nat, j: nat, x: nat): nat
    requires x < |m|
  {
    if EntryAt(d, 0) <= x < EntryAt(d, j) then BLANKS else m[x]
  }

  lemma BlankedReady(m: Ram, d: nat, j: nat)
    requires Ready(m, d) && j <= 1024
    ensures Ready(Blanked(m, d, j), d)
  {
    var n := Blanked(m, d, j);
    forall i | 0 <= i < 1024 ensures PointsHome(n, d, i) {
      assert PointsHome(m, d, i);
    }
    forall page | 0 <= page < PAGES ensures Asleep(n, d, page) {
      assert Asleep(m, d, page);
    }
    forall k | 0 <= k <= 1024 ensures Shows(n, d, k) {
      assert Shows(m, d, k);
      WalkIs(m, d, WINDOW + k);
      WalkIs(n, d, WINDOW + k);
    }
  }
}
