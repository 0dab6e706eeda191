/** The frame pool `init_kalloc` builds from the memory map, and when stack and bitmap agree in it. */
module FrameBoot {
  import opened Common
  import opened FramePool

  const FREE_MEMORY := 1
  const RESERVED := 2
  const ACPI_TABLES := 3

  datatype Region = Region(baseLow: nat, baseHigh: nat, lenLow: nat, kind: nat)

  /** The kernel's own addresses, both ends page aligned. */
  datatype Kernel = Kernel(start: nat, end: nat)

  /** Past this length the 32-bit counter of the loop over a region wraps before it reaches the end. */
  const MAX_LENGTH := 0xFFFF_F000

  predicate CounterFits(r: Region) {
    r.lenLow <= MAX_LENGTH
  }

  predicate Holds(kernel: Kernel, a: nat) {
    kernel.start <= a < kernel.end
  }

  predicate IsFree(r: Region) {
    r.baseHigh == 0 && r.kind == FREE_MEMORY
  }

  predicate IsReserved(r: Region) {
    r.baseHigh == 0 && r.kind == RESERVED && r.baseLow < KERNEL_BOOT_VMA
  }

  predicate HasAcpi(r: Region) {
    r.baseHigh == 0 && r.kind == ACPI_TABLES
  }

  /** Where the ACPI tables are, according to the memory map. */
  function AcpiTables(regions: seq<Region>, was: nat): nat {
    if regions == [] then was
    else
      var r := regions[|regions| - 1];
      if HasAcpi(r) then r.baseLow else AcpiTables(regions[..|regions| - 1], was)
  }

  /** The last entry of that kind counts. */
  lemma {:induction false} LastAcpi(regions: seq<Region>, was: nat, j: nat)
    requires j < |regions| && HasAcpi(regions[j])
    requires forall i :: j < i < |regions| ==> !HasAcpi(regions[i])
    ensures AcpiTables(regions, was) == regions[j].baseLow
    decreases |regions|
  {
    if j < |regions| - 1 {
      LastAcpi(regions[..|regions| - 1], was, j);
    }
  }

  /** How many times the loop over a region runs. */
  function Pages(r: Region): nat {
    (r.lenLow + 0x1000 - 1) / 0x1000
  }

  function Addr(r: Region, k: nat): nat {
    r.baseLow + k * 0x1000
  }

  function Frame(r: Region, k: nat): nat {
    Addr(r, k) / 0x1000
  }

  /** Frame `n` is touched by the loop over the region. */
  predicate Claims(r: Region, n: nat) {
    r.baseLow / 0x1000 <= n < r.baseLow / 0x1000 + Pages(r)
  }

  /** What the first `k` turns over one region push, and which frames they mark SYSTEM. */
  function PushesOf(r: Region, kernel: Kernel, k: nat): seq<nat> {
    if k == 0 then [] else PushesOf(r, kernel, k - 1) + PushAt(r, kernel, k - 1)
  }

  function PushAt(r: Region, kernel: Kernel, i: nat): seq<nat> {
    if IsFree(r) && !Holds(kernel, Addr(r, i)) then [Addr(r, i)] else []
  }

  predicate Marking(r: Region, kernel: Kernel, a: nat) {
    (IsFree(r) && Holds(kernel, a)) || IsReserved(r)
  }

  function MarksOf(r: Region, kernel: Kernel, k: nat): set<nat> {
    if k == 0 then {} else MarksOf(r, kernel, k - 1) + MarkAt(r, kernel, k - 1)
  }

  function MarkAt(r: Region, kernel: Kernel, i: nat): set<nat> {
    if Marking(r, kernel, Addr(r, i)) then {Frame(r, i)} else {}
  }

  function Pushes(regions: seq<Region>, kernel: Kernel): seq<nat> {
    if regions == [] then []
    else
      var r := regions[|regions| - 1];
      Pushes(regions[..|regions| - 1], kernel) + PushesOf(r, kernel, Pages(r))
  }

  function Marks(regions: seq<Region>, kernel: Kernel, mbi: nat): set<nat> {
    if regions == [] then {mbi / 0x1000}
    else
      var r := regions[|regions| - 1];
      Marks(regions[..|regions| - 1], kernel, mbi) + MarksOf(r, kernel, Pages(r))
  }

  /** The pool afterwards, from a cleared bitmap of `frames` entries. */
  function Booted(regions: seq<Region>, kernel: Kernel, mbi: nat, frames: nat): Pool {
    var marks := Marks(regions, kernel, mbi);
    Pool(Pushes(regions, kernel), seq(frames, n requires 0 <= n => if n in marks then SYSTEM else FREE))
  }

  /** Every frame of the usable regions. */
  function Managed(regions: seq<Region>, frames: nat): set<nat> {
    set n | 0 <= n < frames && Usable(regions, n)
  }

  predicate Usable(regions: seq<Region>, n: nat) {
    exists j :: 0 <= j < |regions| && IsFree(regions[j]) && Claims(regions[j], n)
  }

  /** The bitmap has an entry for every frame the loops touch; all of them are below 4 GiB, so no address wraps. */
  predicate Covered(regions: seq<Region>, mbi: nat, frames: nat) {
    && mbi / 0x1000 < frames <= U32 / 0x1000
    && forall j :: 0 <= j < |regions| && (IsFree(regions[j]) || IsReserved(regions[j]))
         ==> regions[j].baseLow / 0x1000 + Pages(regions[j]) <= frames
  }

  predicate Aligned(kernel: Kernel) {
    kernel.start % 0x1000 == 0 && kernel.end % 0x1000 == 0
  }

  /** Region `j` hands out frame `n`, outside the kernel. */
  predicate Offers(regions: seq<Region>, kernel: Kernel, j: nat, n: nat) {
    j < |regions| && IsFree(regions[j]) && Claims(regions[j], n) && !Holds(kernel, n * 0x1000)
  }

  /** Offered frames are page aligned, no other loop touches them, and the multiboot record is not in them. */
  predicate Apart(regions: seq<Region>, kernel: Kernel, mbi: nat, frames: nat) {
    forall j, n :: 0 <= j < |regions| && 0 <= n < frames && Offers(regions, kernel, j, n) ==>
      Alone(regions, mbi, j, n)
  }

  predicate Alone(regions: seq<Region>, mbi: nat, j: nat, n: nat) {
    && j < |regions| && regions[j].baseLow % 0x1000 == 0 && n != mbi / 0x1000
    && forall i :: 0 <= i < |regions| && i != j ==>
         !((IsFree(regions[i]) || IsReserved(regions[i])) && Claims(regions[i], n))
  }

  // ---------------------------------------------------------------- what one region does

  lemma AddrPage(r: Region, k: nat)
    ensures Addr(r, k) / 0x1000 == r.baseLow / 0x1000 + k && Addr(r, k) % 0x1000 == r.baseLow % 0x1000
  {
  }

  /** The address in frame `n` that the loop over a region lands on. */
  function Landing(r: Region, n: nat): (a: nat)
    ensures a / 0x1000 == n && a % 0x1000 == r.baseLow % 0x1000
  {
    n * 0x1000 + r.baseLow % 0x1000
  }

  /** The kernel's ends are page aligned, so it holds an address exactly when it holds its frame. */
  lemma HoldsFrame(kernel: Kernel, a: nat)
    requires Aligned(kernel)
    ensures Holds(kernel, a) <==> Holds(kernel, (a / 0x1000) * 0x1000)
  {
    var s, e := kernel.start / 0x1000, kernel.end / 0x1000;
    assert kernel.start == s * 0x1000 && kernel.end == e * 0x1000;
  }

  lemma {:induction false} PushedBy(r: Region, kernel: Kernel, k: nat, a: nat)
    ensures a in PushesOf(r, kernel, k) <==>
      IsFree(r) && !Holds(kernel, a) && exists i: nat :: i < k && Addr(r, i) == a
  {
    if k > 0 {
      PushedBy(r, kernel, k - 1, a);
      assert Addr(r, k - 1) == a || forall i: nat :: i < k && Addr(r, i) == a ==> i < k - 1;
    }
  }

  lemma {:induction false} MarkedBy(r: Region, kernel: Kernel, k: nat, n: nat)
    requires Aligned(kernel)
    ensures n in MarksOf(r, kernel, k) <==>
      Marking(r, kernel, n * 0x1000) && r.baseLow / 0x1000 <= n < r.baseLow / 0x1000 + k
  {
    if k > 0 {
      MarkedBy(r, kernel, k - 1, n);
      AddrPage(r, k - 1);
      HoldsFrame(kernel, Addr(r, k - 1));
    }
  }

  lemma OnePerFrameJoin(a: seq<nat>, b: seq<nat>)
    requires OnePerFrame(a) && OnePerFrame(b) && forall x <- a, y <- b :: x / 0x1000 != y / 0x1000
    ensures OnePerFrame(a + b)
  {
    var s := a + b;
    forall i, j | 0 <= i < j < |s|
      ensures s[i] / 0x1000 != s[j] / 0x1000
    {
      assert s[i] == if i < |a| then a[i] else b[i - |a|];
      assert s[j] == if j < |a| then a[j] else b[j - |a|];
      if i < |a| <= j {
        assert a[i] in a && b[j - |a|] in b;
      }
    }
  }

  lemma {:induction false} PushesOfFrames(r: Region, kernel: Kernel, k: nat)
    ensures OnePerFrame(PushesOf(r, kernel, k))
    ensures forall a <- PushesOf(r, kernel, k) :: a / 0x1000 < r.baseLow / 0x1000 + k
  {
    if k > 0 {
      PushesOfFrames(r, kernel, k - 1);
      AddrPage(r, k - 1);
      OnePerFrameJoin(PushesOf(r, kernel, k - 1), PushAt(r, kernel, k - 1));
    }
  }

  // ---------------------------------------------------------------- the whole map

  lemma {:induction false} PushedFrom(regions: seq<Region>, kernel: Kernel, a: nat)
    ensures a in Pushes(regions, kernel) <==>
      exists j :: 0 <= j < |regions| && a in PushesOf(regions[j], kernel, Pages(regions[j]))
  {
    if regions != [] {
      var m := |regions| - 1;
      PushedFrom(regions[..m], kernel, a);
      forall j | 0 <= j < m ensures regions[..m][j] == regions[j] {}
    }
  }

  predicate MarkedInMap(regions: seq<Region>, kernel: Kernel, n: nat) {
    exists j :: 0 <= j < |regions| && Marking(regions[j], kernel, n * 0x1000) && Claims(regions[j], n)
  }

  lemma {:induction false} MarkedFrom(regions: seq<Region>, kernel: Kernel, mbi: nat, n: nat)
    requires Aligned(kernel)
    ensures n in Marks(regions, kernel, mbi) <==> n == mbi / 0x1000 || MarkedInMap(regions, kernel, n)
  {
    if regions != [] {
      var m := |regions| - 1;
      MarkedFrom(regions[..m], kernel, mbi, n);
      MarkedBy(regions[m], kernel, Pages(regions[m]), n);
      forall j | 0 <= j < m ensures regions[..m][j] == regions[j] {}
    }
  }

  /** An offered frame's address is pushed, at its region's alignment. */
  lemma OfferedPushed(regions: seq<Region>, kernel: Kernel, j: nat, n: nat)
    requires Aligned(kernel) && Offers(regions, kernel, j, n)
    ensures Landing(regions[j], n) in PushesOf(regions[j], kernel, Pages(regions[j]))
    ensures Landing(regions[j], n) in Pushes(regions, kernel)
  {
    var r, a := regions[j], Landing(regions[j], n);
    var k := n - r.baseLow / 0x1000;
    assert Addr(r, k) == a && k < Pages(r);
    HoldsFrame(kernel, a);
    PushedBy(r, kernel, Pages(r), a);
    PushedFrom(regions, kernel, a);
  }

  /** Each pushed address comes from a region that offers its frame. */
  lemma PushedOffered(regions: seq<Region>, kernel: Kernel, j: nat, a: nat)
    requires Aligned(kernel) && j < |regions| && a in PushesOf(regions[j], kernel, Pages(regions[j]))
    ensures Offers(regions, kernel, j, a / 0x1000) && a % 0x1000 == regions[j].baseLow % 0x1000
  {
    var r := regions[j];
    PushedBy(r, kernel, Pages(r), a);
    var i: nat :| i < Pages(r) && Addr(r, i) == a;
    AddrPage(r, i);
    HoldsFrame(kernel, a);
  }

  lemma NoDupJoin(a: seq<nat>, b: seq<nat>)
    ensures NoDup(a + b) <==> NoDup(a) && NoDup(b) && forall x <- b :: x !in a
  {
    var s := a + b;
    if NoDup(s) {
      forall i, j | 0 <= i < j < |b| ensures b[i] != b[j] {
        assert s[|a| + i] == b[i] && s[|a| + j] == b[j];
      }
      assert NoDup(a) by {
        assert forall i :: 0 <= i < |a| ==> s[i] == a[i];
      }
      forall x <- b ensures x !in a {
        var j :| 0 <= j < |b| && b[j] == x;
        assert s[|a| + j] == x && forall i :: 0 <= i < |a| ==> s[i] == a[i];
      }
    } else {
      var i, j :| 0 <= i < j < |s| && s[i] == s[j];
      if i < |a| <= j {
        assert b[j - |a|] in b && a[i] in a;
      }
    }
  }

  /** No two regions hand out the same frame. */
  ghost predicate OfferedOnce(regions: seq<Region>, kernel: Kernel) {
    forall i, j, n: nat ::
      0 <= i < j < |regions| && Offers(regions, kernel, i, n) ==> !Offers(regions, kernel, j, n)
  }

  lemma {:induction false} OfferedOnceFrames(regions: seq<Region>, kernel: Kernel, m: nat)
    requires Aligned(kernel) && OfferedOnce(regions, kernel) && m <= |regions|
    ensures OnePerFrame(Pushes(regions[..m], kernel))
  {
    if m > 0 {
      var r, before := regions[m - 1], regions[..m - 1];
      assert regions[..m][..m - 1] == before;
      OfferedOnceFrames(regions, kernel, m - 1);
      PushesOfFrames(r, kernel, Pages(r));
      forall a, b | a in Pushes(before, kernel) && b in PushesOf(r, kernel, Pages(r))
        ensures a / 0x1000 != b / 0x1000
      {
        PushedFrom(before, kernel, a);
        var i :| 0 <= i < |before| && a in PushesOf(before[i], kernel, Pages(before[i]));
        PushedOffered(regions, kernel, i, a);
        PushedOffered(regions, kernel, m - 1, b);
      }
      OnePerFrameJoin(Pushes(before, kernel), PushesOf(r, kernel, Pages(r)));
    }
  }

  lemma ApartOfferedOnce(regions: seq<Region>, kernel: Kernel, mbi: nat, frames: nat)
    requires Covered(regions, mbi, frames) && Apart(regions, kernel, mbi, frames)
    ensures OfferedOnce(regions, kernel)
  {
    forall i, j, n: nat | 0 <= i < j < |regions| && Offers(regions, kernel, i, n)
      ensures !Offers(regions, kernel, j, n)
    {
      assert Alone(regions, mbi, i, n);
    }
  }

  /** An address two regions push is on the stack twice. */
  lemma {:induction false} PushedTwice(regions: seq<Region>, kernel: Kernel, i: nat, j: nat, a: nat)
    requires i < j < |regions|
    requires a in PushesOf(regions[i], kernel, Pages(regions[i])) && a in PushesOf(regions[j], kernel, Pages(regions[j]))
    ensures !NoDup(Pushes(regions, kernel))
    decreases |regions|
  {
    var m := |regions| - 1;
    var before := regions[..m];
    NoDupJoin(Pushes(before, kernel), PushesOf(regions[m], kernel, Pages(regions[m])));
    assert before[i] == regions[i];
    if j == m {
      PushedFrom(before, kernel, a);
    } else {
      PushedTwice(before, kernel, i, j, a);
    }
  }

  // ---------------------------------------------------------------- when the booted pool agrees

  lemma ApartUnmarked(regions: seq<Region>, kernel: Kernel, mbi: nat, j: nat, n: nat)
    requires Aligned(kernel) && Offers(regions, kernel, j, n) && Alone(regions, mbi, j, n)
    ensures n !in Marks(regions, kernel, mbi)
  {
    MarkedFrom(regions, kernel, mbi, n);
    forall i | 0 <= i < |regions| ensures !(Marking(regions[i], kernel, n * 0x1000) && Claims(regions[i], n)) {
    }
  }

  lemma ApartListed(regions: seq<Region>, kernel: Kernel, mbi: nat, frames: nat, a: nat)
    requires Aligned(kernel) && Covered(regions, mbi, frames) && Apart(regions, kernel, mbi, frames)
    requires a in Pushes(regions, kernel)
    ensures Listed(Booted(regions, kernel, mbi, frames), Managed(regions, frames), a)
  {
    PushedFrom(regions, kernel, a);
    var j :| 0 <= j < |regions| && a in PushesOf(regions[j], kernel, Pages(regions[j]));
    PushedOffered(regions, kernel, j, a);
    assert Alone(regions, mbi, j, a / 0x1000);
    ApartUnmarked(regions, kernel, mbi, j, a / 0x1000);
  }

  lemma ApartOnStack(regions: seq<Region>, kernel: Kernel, mbi: nat, frames: nat, n: nat)
    requires Aligned(kernel) && Covered(regions, mbi, frames) && Apart(regions, kernel, mbi, frames)
    requires n in Managed(regions, frames) && n !in Marks(regions, kernel, mbi)
    ensures n * 0x1000 in Pushes(regions, kernel)
  {
    var j :| 0 <= j < |regions| && IsFree(regions[j]) && Claims(regions[j], n);
    MarkedFrom(regions, kernel, mbi, n);
    assert !Marking(regions[j], kernel, n * 0x1000);
    assert Offers(regions, kernel, j, n) && Alone(regions, mbi, j, n);
    OfferedPushed(regions, kernel, j, n);
  }

  lemma AgreeAlone(regions: seq<Region>, kernel: Kernel, mbi: nat, frames: nat, j: nat, n: nat)
    requires Aligned(kernel) && Covered(regions, mbi, frames)
    requires Agree(Booted(regions, kernel, mbi, frames), Managed(regions, frames))
    requires Offers(regions, kernel, j, n)
    ensures Alone(regions, mbi, j, n)
  {
    AgreeOffered(regions, kernel, mbi, frames, j, n);
    MarkedFrom(regions, kernel, mbi, n);
    forall i | 0 <= i < |regions| && i != j
      ensures !((IsFree(regions[i]) || IsReserved(regions[i])) && Claims(regions[i], n))
    {
      assert IsReserved(regions[i]) && Claims(regions[i], n) ==> Marking(regions[i], kernel, n * 0x1000);
      if IsFree(regions[i]) && Claims(regions[i], n) {
        AgreeOffered(regions, kernel, mbi, frames, i, n);
        PushedTwice(regions, kernel, if i < j then i else j, if i < j then j else i, n * 0x1000);
      }
    }
  }

  lemma AgreeOffered(regions: seq<Region>, kernel: Kernel, mbi: nat, frames: nat, j: nat, n: nat)
    requires Aligned(kernel) && Covered(regions, mbi, frames)
    requires Agree(Booted(regions, kernel, mbi, frames), Managed(regions, frames))
    requires Offers(regions, kernel, j, n)
    ensures regions[j].baseLow % 0x1000 == 0 && n !in Marks(regions, kernel, mbi)
    ensures n * 0x1000 in PushesOf(regions[j], kernel, Pages(regions[j]))
  {
    OfferedPushed(regions, kernel, j, n);
    AgreePushed(regions, kernel, mbi, frames, Landing(regions[j], n));
    AlignedIs(Landing(regions[j], n), n);
  }

  lemma AlignedIs(a: nat, n: nat)
    requires a % 0x1000 == 0 && a / 0x1000 == n
    ensures a == n * 0x1000
  {
  }

  lemma AgreePushed(regions: seq<Region>, kernel: Kernel, mbi: nat, frames: nat, a: nat)
    requires Agree(Booted(regions, kernel, mbi, frames), Managed(regions, frames)) && a in Pushes(regions, kernel)
    ensures a % 0x1000 == 0 && a / 0x1000 !in Marks(regions, kernel, mbi)
  {
    var p := Booted(regions, kernel, mbi, frames);
    var i :| 0 <= i < |p.free| && p.free[i] == a;
    assert Listed(p, Managed(regions, frames), p.free[i]);
  }

  /** `init_kalloc` ends with stack and bitmap in step exactly when the offered frames stand apart. */
  lemma BootAgrees(regions: seq<Region>, kernel: Kernel, mbi: nat, frames: nat)
    requires Aligned(kernel) && Covered(regions, mbi, frames)
    ensures Agree(Booted(regions, kernel, mbi, frames), Managed(regions, frames)) <==>
      Apart(regions, kernel, mbi, frames)
  {
    var p, managed := Booted(regions, kernel, mbi, frames), Managed(regions, frames);
    if Apart(regions, kernel, mbi, frames) {
      ApartOfferedOnce(regions, kernel, mbi, frames);
      OfferedOnceFrames(regions, kernel, |regions|);
      assert regions[..|regions|] == regions;
      forall i | 0 <= i < |p.free| ensures Listed(p, managed, p.free[i]) {
        ApartListed(regions, kernel, mbi, frames, p.free[i]);
      }
      forall n <- managed | p.status[n] == FREE ensures n * 0x1000 in p.free {
        ApartOnStack(regions, kernel, mbi, frames, n);
      }
    }
    if Agree(p, managed) {
      forall j, n | 0 <= j < |regions| && 0 <= n < frames && Offers(regions, kernel, j, n)
        ensures Alone(regions, mbi, j, n)
      {
        AgreeAlone(regions, kernel, mbi, frames, j, n);
      }
    }
  }

  predicate Ascending(s: seq<nat>, bound: nat) {
    (forall i, j :: 0 <= i < j < |s| ==> s[i] < s[j]) && forall i :: 0 <= i < |s| ==> s[i] < bound
  }

  /** The addresses of one region are pushed in ascending order. */
  lemma {:induction false} PushesAscend(r: Region, kernel: Kernel, k: nat)
    ensures Ascending(PushesOf(r, kernel, k), Addr(r, k))
  {
    if k > 0 {
      var before, a := PushesOf(r, kernel, k - 1), Addr(r, k - 1);
      PushesAscend(r, kernel, k - 1);
      assert a < Addr(r, k);
      if PushAt(r, kernel, k - 1) == [] {
        assert PushesOf(r, kernel, k) == before;
      } else {
        assert PushesOf(r, kernel, k) == before + [a];
      }
    }
  }

  /** The loop over region `r` comes to address `a`. */
  ghost predicate Visits(r: Region, a: nat) {
    r.baseHigh == 0 && exists i: nat :: i * 0x1000 < r.lenLow && a == Addr(r, i)
  }

  lemma TurnsVisit(r: Region, i: nat)
    ensures i < Pages(r) <==> i * 0x1000 < r.lenLow
  {
  }

  /** What is on the stack after `init_kalloc`: the addresses of usable regions outside the kernel. */
  lemma PushedExactly(regions: seq<Region>, kernel: Kernel, a: nat)
    ensures a in Pushes(regions, kernel) <==>
      && (a < kernel.start || kernel.end <= a)
      && exists j :: 0 <= j < |regions| && regions[j].kind == FREE_MEMORY && Visits(regions[j], a)
  {
    PushedFrom(regions, kernel, a);
    forall j | 0 <= j < |regions|
      ensures a in PushesOf(regions[j], kernel, Pages(regions[j])) <==>
        (a < kernel.start || kernel.end <= a) && regions[j].kind == FREE_MEMORY && Visits(regions[j], a)
    {
      PushedHere(regions[j], kernel, a);
    }
  }

  lemma PushedHere(r: Region, kernel: Kernel, a: nat)
    ensures a in PushesOf(r, kernel, Pages(r)) <==>
      (a < kernel.start || kernel.end <= a) && r.kind == FREE_MEMORY && Visits(r, a)
  {
    PushedBy(r, kernel, Pages(r), a);
    forall i: nat ensures i < Pages(r) <==> i * 0x1000 < r.lenLow {
      TurnsVisit(r, i);
    }
  }

  /** A region's loop marks frame `n`: usable memory of the kernel, or reserved memory that begins below it. */
  ghost predicate MarksFrame(r: Region, kernel: Kernel, n: nat) {
    && (exists a: nat :: a / 0x1000 == n && Visits(r, a))
    && ((r.kind == FREE_MEMORY && kernel.start <= n * 0x1000 < kernel.end)
        || (r.kind == RESERVED && r.baseLow < KERNEL_BOOT_VMA))
  }

  lemma ClaimsVisited(r: Region, n: nat)
    requires r.baseHigh == 0
    ensures Claims(r, n) <==> exists a: nat :: a / 0x1000 == n && Visits(r, a)
  {
    if Claims(r, n) {
      var i := n - r.baseLow / 0x1000;
      AddrPage(r, i);
      TurnsVisit(r, i);
      assert Visits(r, Addr(r, i));
    }
    if a: nat :| a / 0x1000 == n && Visits(r, a) {
      var i: nat :| i * 0x1000 < r.lenLow && a == Addr(r, i);
      AddrPage(r, i);
      TurnsVisit(r, i);
    }
  }

  /**
    After `init_kalloc` a frame's status is SYSTEM exactly for the record's frame, usable frames
    of the kernel, and low reserved memory, and FREE for every other.
   */
  lemma BootStatus(regions: seq<Region>, kernel: Kernel, mbi: nat, frames: nat, n: nat)
    requires Aligned(kernel) && n < frames
    ensures Booted(regions, kernel, mbi, frames).status[n] ==
      if n == mbi / 0x1000 || exists j :: 0 <= j < |regions| && MarksFrame(regions[j], kernel, n) then SYSTEM else FREE
  {
    MarkedFrom(regions, kernel, mbi, n);
    forall j | 0 <= j < |regions|
      ensures Marking(regions[j], kernel, n * 0x1000) && Claims(regions[j], n) <==> MarksFrame(regions[j], kernel, n)
    {
      if regions[j].baseHigh == 0 {
        ClaimsVisited(regions[j], n);
      }
    }
  }

  // ---------------------------------------------------------------- room on the stack

  function FramesBetween(first: nat, end: nat): (s: set<nat>)
    requires first <= end
    ensures |s| == end - first && forall n :: n in s <==> first <= n < end
    decreases end - first
  {
    if first == end then {} else FramesBetween(first, end - 1) + {end - 1}
  }

  /** The kernel's own frames never go on the stack, wherever the multiboot record lies. */
  lemma KernelKeptOff(regions: seq<Region>, kernel: Kernel, mbi: nat, frames: nat)
    requires Aligned(kernel) && Covered(regions, mbi, frames) && OfferedOnce(regions, kernel)
    requires kernel.start <= kernel.end && kernel.end / 0x1000 <= frames
    ensures |Pushes(regions, kernel)| + (kernel.end / 0x1000 - kernel.start / 0x1000) <= frames
  {
    var pushes := Pushes(regions, kernel);
    OfferedOnceFrames(regions, kernel, |regions|);
    assert regions[..|regions|] == regions;
    FramesOfSize(pushes);
    var own := FramesBetween(kernel.start / 0x1000, kernel.end / 0x1000);
    forall n | n in FramesOf(pushes) ensures n < frames && n !in own {
      PushedOutside(regions, kernel, mbi, frames, n);
    }
    BelowBound(FramesOf(pushes) + own, frames);
  }

  lemma PushedOutside(regions: seq<Region>, kernel: Kernel, mbi: nat, frames: nat, n: nat)
    requires Aligned(kernel) && Covered(regions, mbi, frames)
    requires n in FramesOf(Pushes(regions, kernel))
    ensures n < frames && !(kernel.start / 0x1000 <= n < kernel.end / 0x1000)
  {
    InFramesOf(Pushes(regions, kernel), n);
    var a :| a in Pushes(regions, kernel) && a / 0x1000 == n;
    PushedFrom(regions, kernel, a);
    var j :| 0 <= j < |regions| && a in PushesOf(regions[j], kernel, Pages(regions[j]));
    PushedOffered(regions, kernel, j, a);
    HoldsFrame(kernel, a);
  }

  /** So with a kernel of 1025 frames or more, tables included, the mapped cells of the stack are enough. */
  lemma BootedInReach(regions: seq<Region>, kernel: Kernel, mbi: nat, frames: nat)
    requires Aligned(kernel) && Covered(regions, mbi, frames) && OfferedOnce(regions, kernel)
    requires kernel.start / 0x1000 + 1025 <= kernel.end / 0x1000 <= frames && kernel.start <= kernel.end
    ensures |Pushes(regions, kernel)| < ((frames + 1) / 1024) * 1024
  {
    KernelKeptOff(regions, kernel, mbi, frames);
  }
}
