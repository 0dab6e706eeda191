/** Two-level paging over physical memory, and the alias through which the kernel edits it. */
module Paging {
  import opened Common

  /** Physical memory in 32-bit words: frame `f` is words 1024 * f to 1024 * f + 1023. */
  type Ram = seq<nat>

  const PAGES := 0x10_0000
  /** Page number of KERNEL_STRUCTURES_SPACE, 0xF8000000. */
  const WINDOW := 0xF_8000

  predicate Present(word: nat) {
    word % 2 == 1
  }

  function Frame(word: nat): nat {
    word / 0x1000
  }

  /** The 32-bit page walk: directory entry, then table entry. */
  function Walk(m: Ram, cr3: nat, page: nat): Option<nat> {
    var pde := cr3 * 1024 + page / 1024;
    if pde >= |m| || !Present(m[pde]) then None
    else
      var pte := Frame(m[pde]) * 1024 + page % 1024;
      if pte >= |m| || !Present(m[pte]) then None else Some(Frame(m[pte]))
  }

  /** The physical word behind a virtual word. */
  function Resolve(m: Ram, cr3: nat, word: nat): Option<nat> {
    match Walk(m, cr3, word / 1024)
    case None => None
    case Some(frame) => Some(frame * 1024 + word % 1024)
  }

  function DirAt(d: nat, i: nat): nat {
    d * 1024 + i
  }

  function EntryAt(d: nat, page: nat): nat {
    (d + 1) * 1024 + page
  }

  /** Directory entry `i` points to table `i`; the tables follow the directory's frame `d`. */
  predicate PointsHome(m: Ram, d: nat, i: nat) {
    DirAt(d, i) < |m| && Frame(m[DirAt(d, i)]) == d + 1 + i
  }

  predicate Layout(m: Ram, d: nat) {
    && d + 1025 <= PAGES && (d + 1025) * 1024 <= |m|
    && forall i :: 0 <= i < 1024 ==> PointsHome(m, d, i)
  }

  /** A page is mapped when both its entries are present. */
  predicate Mapped(m: Ram, d: nat, page: nat)
    requires page < PAGES && (d + 1025) * 1024 <= |m|
  {
    Present(m[DirAt(d, page / 1024)]) && Present(m[EntryAt(d, page)])
  }

  /** Under an absent directory entry no table entry is present. */
  predicate Asleep(m: Ram, d: nat, page: nat)
    requires page < PAGES && (d + 1025) * 1024 <= |m|
  {
    !Present(m[DirAt(d, page / 1024)]) ==> !Present(m[EntryAt(d, page)])
  }

  predicate Dormant(m: Ram, d: nat)
    requires (d + 1025) * 1024 <= |m|
  {
    forall page :: 0 <= page < PAGES ==> Asleep(m, d, page)
  }

  predicate Shows(m: Ram, d: nat, k: nat) {
    Walk(m, d, WINDOW + k) == Some(d + k)
  }

  /** The directory and its 1024 tables appear, in order, at the window. */
  predicate Window(m: Ram, d: nat) {
    forall k :: 0 <= k <= 1024 ==> Shows(m, d, k)
  }

  predicate Ready(m: Ram, d: nat) {
    Layout(m, d) && Dormant(m, d) && Window(m, d)
  }

  /** The address space: virtual page to frame. */
  function Space(m: Ram, d: nat): map<nat, nat> {
    map page | 0 <= page < PAGES && Walk(m, d, page).Some? :: Walk(m, d, page).value
  }

  // ---------------------------------------------------------------- walking

  lemma WalkIs(m: Ram, d: nat, page: nat)
    requires Layout(m, d) && page < PAGES
    ensures Walk(m, d, page) == if Mapped(m, d, page) then Some(Frame(m[EntryAt(d, page)])) else None
  {
    assert PointsHome(m, d, page / 1024);
  }

  function PageOf(address: nat): nat {
    address / 0x1000
  }

  lemma PageOfWindow(i: nat)
    ensures PageOf(0xF8000000) == WINDOW && PageOf(0xF8001000 + 0x1000 * i) == WINDOW + (1 + i)
  {
  }

  /** The window shows the directory at its first page and the table of each directory entry after it. */
  lemma SelfAlias(m: Ram, d: nat, i: nat)
    requires Ready(m, d) && i < 1024
    ensures Walk(m, d, PageOf(0xF8000000)) == Some(d)
    ensures Walk(m, d, PageOf(0xF8001000 + 0x1000 * i)) == Some(Frame(m[DirAt(d, i)]))
  {
    PageOfWindow(i);
    ShowsFrame(m, d, 0);
    ShowsFrame(m, d, 1 + i);
    assert PointsHome(m, d, i);
  }

  lemma ShowsFrame(m: Ram, d: nat, k: nat)
    requires Window(m, d) && k <= 1024
    ensures Walk(m, d, WINDOW + k) == Some(d + k)
  {
    assert Shows(m, d, k);
  }

  /** A word at offset `x` of the window is the word at offset `x` of the paging structures. */
  lemma WindowWord(m: Ram, d: nat, x: nat)
    requires Window(m, d) && x < 1025 * 1024
    ensures Resolve(m, d, WINDOW * 1024 + x) == Some(d * 1024 + x)
  {
    assert (WINDOW * 1024 + x) / 1024 == WINDOW + x / 1024;
    assert Shows(m, d, x / 1024);
  }

  // ---------------------------------------------------------------- one entry written

  /** Setting the present bit of a directory entry, if it is clear. */
  function Woken(m: Ram, d: nat, i: nat): Ram
    requires DirAt(d, i) < |m|
  {
    var at := DirAt(d, i);
    if Present(m[at]) then m else m[at := m[at] + 1]
  }

  /** Memory after `map` of a page to a frame. */
  function Put(m: Ram, d: nat, page: nat, frame: nat): Ram
    requires page < PAGES && (d + 1025) * 1024 <= |m|
  {
    Woken(m, d, page / 1024)[EntryAt(d, page) := frame * 0x1000 + 1]
  }

  lemma FrameOf(frame: nat, rest: nat)
    requires rest < 0x1000
    ensures Frame(frame * 0x1000 + rest) == frame
  {
  }

  lemma PresentOf(frame: nat, rest: nat)
    ensures Present(frame * 0x1000 + rest) <==> Present(rest)
  {
    assert frame * 0x1000 + rest == 2 * (frame * 0x800) + rest;
  }

  lemma WakeWord(word: nat)
    requires !Present(word)
    ensures Present(word + 1) && Frame(word + 1) == Frame(word)
  {
    var frame, rest := Frame(word), word - Frame(word) * 0x1000;
    PresentOf(frame, rest);
    PresentOf(frame, rest + 1);
    FrameOf(frame, rest + 1);
  }

  lemma EntryWord(frame: nat)
    ensures Present(frame * 0x1000 + 1) && Frame(frame * 0x1000 + 1) == frame
  {
    PresentOf(frame, 1);
    FrameOf(frame, 1);
  }

  lemma WokenKeeps(m: Ram, d: nat, i: nat)
    requires Layout(m, d) && Dormant(m, d) && i < 1024
    ensures Layout(Woken(m, d, i), d) && Dormant(Woken(m, d, i), d)
  {
    var w := Woken(m, d, i);
    if !Present(m[DirAt(d, i)]) {
      WakeWord(m[DirAt(d, i)]);
    }
    forall k | 0 <= k < 1024 ensures PointsHome(w, d, k) {
      assert PointsHome(m, d, k);
    }
    forall page | 0 <= page < PAGES ensures Asleep(w, d, page) {
      assert Asleep(m, d, page);
    }
  }

  lemma WokenPresent(m: Ram, d: nat, i: nat)
    requires DirAt(d, i) < |m|
    ensures Present(Woken(m, d, i)[DirAt(d, i)])
  {
  }

  /** Waking a directory entry maps nothing: its table is asleep. */
  lemma WokenWalk(m: Ram, d: nat, i: nat, page: nat)
    requires Layout(m, d) && Dormant(m, d) && i < 1024 && page < PAGES
    ensures Walk(Woken(m, d, i), d, page) == Walk(m, d, page)
  {
    WokenKeeps(m, d, i);
    WalkIs(m, d, page);
    WalkIs(Woken(m, d, i), d, page);
    assert Asleep(m, d, page);
  }

  /** The tables lie behind the directory. */
  lemma EntryBehind(d: nat, i: nat, page: nat)
    requires i < 1024 && page < PAGES
    ensures DirAt(d, i) < EntryAt(d, page) < (d + 1025) * 1024
  {
  }

  lemma PutKeeps(m: Ram, d: nat, page: nat, frame: nat)
    requires Layout(m, d) && Dormant(m, d) && page < PAGES
    ensures Layout(Put(m, d, page, frame), d) && Dormant(Put(m, d, page, frame), d)
  {
    WokenKeeps(m, d, page / 1024);
    WokenPresent(m, d, page / 1024);
    EntryKeeps(Woken(m, d, page / 1024), d, page, frame * 0x1000 + 1);
  }

  /** Writing an entry of a table that is awake. */
  lemma EntryKeeps(w: Ram, d: nat, page: nat, word: nat)
    requires Layout(w, d) && Dormant(w, d) && page < PAGES && Present(w[DirAt(d, page / 1024)])
    ensures Layout(w[EntryAt(d, page) := word], d) && Dormant(w[EntryAt(d, page) := word], d)
  {
    var p := w[EntryAt(d, page) := word];
    forall k | 0 <= k < 1024 ensures PointsHome(p, d, k) {
      EntryBehind(d, k, page);
      assert PointsHome(w, d, k);
    }
    forall other | 0 <= other < PAGES ensures Asleep(p, d, other) {
      EntryBehind(d, other / 1024, page);
      assert Asleep(w, d, other);
    }
  }

  /** Only the page that was mapped translates differently. */
  lemma PutWalk(m: Ram, d: nat, page: nat, frame: nat, other: nat)
    requires Layout(m, d) && Dormant(m, d) && page < PAGES && other < PAGES
    ensures Walk(Put(m, d, page, frame), d, other) == if other == page then Some(frame) else Walk(m, d, other)
  {
    var w, p := Woken(m, d, page / 1024), Put(m, d, page, frame);
    EntryWord(frame);
    PutKeeps(m, d, page, frame);
    WokenKeeps(m, d, page / 1024);
    WokenPresent(m, d, page / 1024);
    WokenWalk(m, d, page / 1024, other);
    WalkIs(w, d, other);
    WalkIs(p, d, other);
  }

  /** Bit `k` of a word, from the lowest. */
  function Bit(word: nat, k: nat): nat {
    if k == 0 then word % 2 else Bit(word / 2, k - 1)
  }

  lemma WakeBits(word: nat, k: nat)
    ensures word % 2 == 0 ==> Bit(word + 1, k) == if k == 0 then 1 else Bit(word, k)
    ensures word % 2 == 1 ==> Bit(word, 0) == 1
  {
    if word % 2 == 0 {
      assert (word + 1) / 2 == word / 2;
    }
  }

  lemma EntryBits(frame: nat)
    ensures (frame * 0x1000 + 1) % 0x1000 == 1
  {
  }

  /** Word by word, `map` sets the present bit of the directory entry and writes the entry of the page, no more. */
  lemma PutWords(m: Ram, d: nat, page: nat, frame: nat, dir: nat, entry: nat, k: nat)
    requires Layout(m, d) && page < PAGES && dir == DirAt(d, page / 1024) && entry == EntryAt(d, page)
    ensures var p := Put(m, d, page, frame);
      && entry < |p| == |m| && (forall x :: 0 <= x < |m| && x != dir && x != entry ==> p[x] == m[x])
      && p[entry] % 0x1000 == 1 && Frame(p[entry]) == frame
      && dir < |p| && Bit(p[dir], k) == if k == 0 then 1 else Bit(m[dir], k)
  {
    EntryBehind(d, page / 1024, page);
    EntryWord(frame);
    EntryBits(frame);
    WakeBits(m[dir], k);
  }

  /** `map` refines an update of the address space. */
  lemma PutRefines(m: Ram, d: nat, page: nat, frame: nat)
    requires Layout(m, d) && Dormant(m, d) && page < PAGES
    ensures Space(Put(m, d, page, frame), d) == Space(m, d)[page := frame]
  {
    forall other | 0 <= other < PAGES
      ensures Walk(Put(m, d, page, frame), d, other) == if other == page then Some(frame) else Walk(m, d, other)
    {
      PutWalk(m, d, page, frame, other);
    }
  }

  /** The page lies outside the window, or gets the frame it already has there. */
  predicate LeavesWindow(d: nat, page: nat, frame: nat) {
    page < WINDOW || page > WINDOW + 1024 || frame == d + (page - WINDOW)
  }

  /** The alias survives exactly the writes that leave the window as it is. */
  lemma PutWindow(m: Ram, d: nat, page: nat, frame: nat)
    requires Ready(m, d) && page < PAGES
    ensures Ready(Put(m, d, page, frame), d) <==> LeavesWindow(d, page, frame)
  {
    var p := Put(m, d, page, frame);
    PutKeeps(m, d, page, frame);
    forall k | 0 <= k <= 1024 ensures Shows(p, d, k) <==> WINDOW + k != page || frame == d + k {
      assert Shows(m, d, k);
      PutWalk(m, d, page, frame, WINDOW + k);
    }
    if WINDOW <= page <= WINDOW + 1024 {
      assert Shows(p, d, page - WINDOW) <==> LeavesWindow(d, page, frame);
    }
  }

  // ---------------------------------------------------------------- runs

  datatype Op = Map(frame: nat, page: nat) | Remap(source: nat, target: nat)

  /** The call does not panic, and does not disturb the window. */
  predicate Allowed(space: map<nat, nat>, d: nat, op: Op) {
    match op
    case Map(frame, page) => page < PAGES && LeavesWindow(d, page, frame)
    case Remap(source, target) => source < PAGES && target < PAGES && source in space && LeavesWindow(d, target, space[source])
  }

  function Apply(space: map<nat, nat>, d: nat, op: Op): map<nat, nat>
    requires Allowed(space, d, op)
  {
    match op
    case Map(frame, page) => space[page := frame]
    case Remap(source, target) => space[target := space[source]]
  }

  /** The same step on memory. */
  function Write(m: Ram, d: nat, op: Op): Ram
    requires Layout(m, d) && Allowed(Space(m, d), d, op)
  {
    match op
    case Map(frame, page) => Put(m, d, page, frame)
    case Remap(source, target) => Put(m, d, target, Frame(m[EntryAt(d, source)]))
  }

  lemma WriteRefines(m: Ram, d: nat, op: Op)
    requires Ready(m, d) && Allowed(Space(m, d), d, op)
    ensures Ready(Write(m, d, op), d)
    ensures Space(Write(m, d, op), d) == Apply(Space(m, d), d, op)
  {
    match op
    case Map(frame, page) =>
      PutWindow(m, d, page, frame);
      PutRefines(m, d, page, frame);
    case Remap(source, target) =>
      WalkIs(m, d, source);
      PutWindow(m, d, target, Frame(m[EntryAt(d, source)]));
      PutRefines(m, d, target, Frame(m[EntryAt(d, source)]));
  }

  predicate AllAllowed(space: map<nat, nat>, d: nat, ops: seq<Op>)
    decreases |ops|
  {
    ops == [] || (Allowed(space, d, ops[0]) && AllAllowed(Apply(space, d, ops[0]), d, ops[1..]))
  }

  function ApplyAll(space: map<nat, nat>, d: nat, ops: seq<Op>): map<nat, nat>
    requires AllAllowed(space, d, ops)
    decreases |ops|
  {
    if ops == [] then space else ApplyAll(Apply(space, d, ops[0]), d, ops[1..])
  }

  /** A run on memory ends in `n`. */
  predicate Runs(m: Ram, d: nat, ops: seq<Op>, n: Ram)
    decreases |ops|
  {
    if ops == [] then m == n
    else Layout(m, d) && Allowed(Space(m, d), d, ops[0]) && Runs(Write(m, d, ops[0]), d, ops[1..], n)
  }

  /** Whole runs of `map` and `remap` refine runs on a finite map, and keep the alias. */
  lemma {:induction false} RunRefines(m: Ram, d: nat, ops: seq<Op>, n: Ram)
    requires Ready(m, d) && Runs(m, d, ops, n)
    ensures Ready(n, d) && AllAllowed(Space(m, d), d, ops)
    ensures Space(n, d) == ApplyAll(Space(m, d), d, ops)
    decreases |ops|
  {
    if ops != [] {
      WriteRefines(m, d, ops[0]);
      RunRefines(Write(m, d, ops[0]), d, ops[1..], n);
    }
  }
}
