/** Who owns what in the heap, and what whole runs of malloc and free leave behind. */
module HeapRuns {
  import opened Common
  import opened HeapBlocks

  // ---------------------------------------------------------------- blocks do not overlap

  lemma {:induction false} Ordered(bs: seq<Block>, i: nat, j: nat)
    requires Heap(bs) && i < j < |bs|
    ensures j < |bs| - 1 ==> bs[i].End() <= bs[j].addr
    ensures i < |bs| - 2 ==> bs[i].End() <= bs[j].addr
    decreases j - i
  {
    assert BlockOk(bs, j - 1);
    if j > i + 1 {
      Ordered(bs, i, j - 1);
    }
  }

  lemma AddrIncreases(bs: seq<Block>, i: nat, j: nat)
    requires Heap(bs) && i < j < |bs|
    ensures bs[i].addr < bs[j].addr
  {
    Ordered(bs, i, j);
    assert bs[|bs| - 2].addr < TAIL;
  }

  lemma AddrDistinct(bs: seq<Block>, i: nat, j: nat)
    requires Heap(bs) && i < |bs| && j < |bs|
    ensures bs[i].addr == bs[j].addr <==> i == j
  {
    if i < j {
      AddrIncreases(bs, i, j);
    } else if j < i {
      AddrIncreases(bs, j, i);
    }
  }

  lemma InHeap(bs: seq<Block>, i: nat)
    requires Heap(bs) && i < |bs|
    ensures HEAD <= bs[i].addr <= TAIL && (Inner(bs, i) ==> HEAD + HEADER <= bs[i].addr)
  {
    if i > 0 {
      Ordered(bs, 0, i);
    }
    if i < |bs| - 2 {
      Ordered(bs, i, |bs| - 1);
    }
  }

  /** Apart, headers included. */
  predicate Beside(b: Block, c: Block) {
    b.End() <= c.addr || c.End() <= b.addr
  }

  /** The bytes of an allocated block, header and payload, belong to no other block. */
  lemma Exclusive(bs: seq<Block>, i: nat, j: nat)
    requires Sound(bs) && Inner(bs, i) && !bs[i].free && j < |bs| && i != j
    ensures Beside(bs[i], bs[j]) && HEAD + HEADER <= bs[i].addr && bs[i].End() <= TAIL
  {
    InHeap(bs, i);
    Ordered(bs, i, |bs| - 1);
    if i < j {
      Ordered(bs, i, j);
    } else {
      Ordered(bs, j, i);
    }
  }

  // ---------------------------------------------------------------- live pointers

  ghost predicate Owns(bs: seq<Block>, i: nat, ptr: nat) {
    Inner(bs, i) && !bs[i].free && bs[i].Payload() == ptr
  }

  /** `ptr` is the payload of an allocated block. */
  ghost predicate Live(bs: seq<Block>, ptr: nat) {
    exists i :: Owns(bs, i, ptr)
  }

  lemma FindsOwner(bs: seq<Block>, i: nat)
    requires Heap(bs) && i < |bs| - 1
    ensures Find(bs, HeaderOf(bs[i].Payload()), 0) == i
  {
    InHeap(bs, i);
    var r := Find(bs, bs[i].addr, 0);
    assert HeaderOf(bs[i].Payload()) == bs[i].addr;
    if r < |bs| {
      AddrDistinct(bs, i, r);
    }
  }

  /** A pointer whose header is not listed finds nothing, however small: addresses do not wrap into the heap. */
  lemma FindsListed(bs: seq<Block>, ptr: nat)
    requires Heap(bs) && ptr < U32 && Find(bs, HeaderOf(ptr), 0) < |bs|
    ensures bs[Find(bs, HeaderOf(ptr), 0)].Payload() == ptr
  {
    InHeap(bs, Find(bs, HeaderOf(ptr), 0));
  }

  /**
    The payload address of the head sentinel finds the head.  The head is free afterwards and
    spans a free first block; what follows is as before.
   */
  lemma FreeOfHead(bs: seq<Block>)
    requires Heap(bs)
    ensures var r := DoFree(bs, HEAD + HEADER);
      && !Heap(r) && !Live(bs, HEAD + HEADER)
      && r[0].free && r[0].addr == HEAD && r[0].End() == bs[if bs[1].free then 1 else 0].End()
      && r[1..] == bs[if bs[1].free then 2 else 1..]
  {
    FindsOwner(bs, 0);
    assert BlockOk(bs, 0);
    if Live(bs, HEAD + HEADER) {
      var j: nat :| Owns(bs, j, HEAD + HEADER);
      AddrDistinct(bs, 0, j);
    }
  }

  /**
    `free` of anything but a live pointer and the head sentinel's payload address changes
    nothing: neither a pointer into the middle of a block, nor one that was freed before, nor null.
   */
  lemma FreeOfOthers(bs: seq<Block>, ptr: nat)
    requires Heap(bs) && ptr < U32 && !Live(bs, ptr) && ptr != HEAD + HEADER
    ensures DoFree(bs, ptr) == bs
  {
    var i := Find(bs, HeaderOf(ptr), 0);
    if i < |bs| {
      FindsListed(bs, ptr);
    }
    if ptr != 0 && Inner(bs, i) {
      FindsListed(bs, ptr);
      assert !Owns(bs, i, ptr);
      FreeNeighbours(bs, i);
      assert bs[i := bs[i].(free := true)] == bs;
    }
  }

  lemma FreeOfLive(bs: seq<Block>, i: nat, ptr: nat)
    requires Heap(bs) && Owns(bs, i, ptr)
    ensures DoFree(bs, ptr) == Release(bs, i)
  {
    InHeap(bs, i);
    FindsOwner(bs, i);
  }

  /** Merging around `i` moves the other allocated blocks, but keeps them all. */
  lemma MergedOwns(bs: seq<Block>, lo: nat, hi: nat, i: nat, j: nat, p: nat)
    requires lo <= i < hi <= |bs| - 1 && lo >= 1 && bs[hi - 1].End() >= bs[lo].Payload()
    requires forall k :: lo <= k < hi && k != i ==> bs[k].free
    ensures j != i && Owns(bs, j, p) ==> Owns(Merged(bs, lo, hi), if j < lo then j else j - (hi - lo - 1), p)
    ensures Owns(Merged(bs, lo, hi), j, p) ==>
      j != lo && Owns(bs, if j < lo then j else j + (hi - lo - 1), p)
  {
    MergedAt(bs, lo, hi);
  }

  lemma MergedLive(bs: seq<Block>, r: seq<Block>, lo: nat, hi: nat, i: nat, p: nat)
    requires lo <= i < hi <= |bs| - 1 && lo >= 1 && bs[hi - 1].End() >= bs[lo].Payload()
    requires forall k :: lo <= k < hi && k != i ==> bs[k].free
    requires r == Merged(bs, lo, hi)
    ensures Live(bs, p) && p != bs[i].Payload() ==> Live(r, p)
    ensures Live(r, p) ==> exists h :: h != i && Owns(bs, h, p)
  {
    if Live(bs, p) && p != bs[i].Payload() {
      var j: nat :| Owns(bs, j, p);
      MergedOwns(bs, lo, hi, i, j, p);
    }
    if Live(r, p) {
      var j: nat :| Owns(r, j, p);
      MergedOwns(bs, lo, hi, i, j, p);
    }
  }

  lemma ReleaseLive(bs: seq<Block>, i: nat, p: nat)
    requires Heap(bs) && Inner(bs, i) && !bs[i].free
    ensures Live(Release(bs, i), p) <==> Live(bs, p) && p != bs[i].Payload()
  {
    ReleaseMerges(bs, i);
    var lo, hi := MergeFrom(bs, i), MergeTo(bs, i);
    MergedLive(bs, Merged(bs, lo, hi), lo, hi, i, p);
    OtherOwner(bs, i, p);
  }

  lemma OtherOwner(bs: seq<Block>, i: nat, p: nat)
    requires Heap(bs) && Inner(bs, i)
    ensures (exists h :: h != i && Owns(bs, h, p)) ==> Live(bs, p) && p != bs[i].Payload()
  {
    if h: nat :| h != i && Owns(bs, h, p) {
      AddrDistinct(bs, h, i);
    }
  }

  lemma TakeLive(bs: seq<Block>, i: nat, size: nat, p: nat)
    requires Heap(bs) && Inner(bs, i) && bs[i].free
    ensures Live(Take(bs, i, size), p) <==> Live(bs, p) || p == bs[i].Payload()
  {
    var r := Take(bs, i, size);
    var d := if bs[i].size >= size + HEADER then 1 else 0;
    assert forall j :: 0 <= j < |r| && (j < i || j > i + d) ==> r[j] == if j < i then bs[j] else bs[j - d];
    assert r[i].Payload() == bs[i].Payload() && !r[i].free;
    if Live(bs, p) {
      var j : nat :| Owns(bs, j, p);
      assert Owns(r, if j < i then j else j + d, p);
    }
    if p == bs[i].Payload() {
      assert Owns(r, i, p);
    }
    if Live(r, p) && p != bs[i].Payload() {
      var j : nat :| Owns(r, j, p);
      assert Owns(bs, if j < i then j else j - d, p);
    }
  }

  // ---------------------------------------------------------------- malloc

  /** What the caller of a successful `malloc` gets. */
  ghost predicate Grants(bs: seq<Block>, request: nat, m: Malloc, i: nat) {
    && Owns(m.blocks, i, m.ptr)
    && request <= m.blocks[i].size < request + 8 + HEADER
    && m.ptr % 8 == 4
    && m.blocks[i].End() <= TAIL
    && (forall j :: 0 <= j < |m.blocks| && j != i ==> Beside(m.blocks[i], m.blocks[j]))
    && !Live(bs, m.ptr)
    && (forall p :: Live(m.blocks, p) <==> Live(bs, p) || p == m.ptr)
  }

  /**
    A non-null result is a new payload of at least the requested size, and less than 24 bytes
    more, at 4 modulo 8, inside the heap, and beside every other block and header; nothing
    else changes hands.
   */
  lemma MallocGrants(bs: seq<Block>, request: nat)
    requires Sound(bs) && request <= U32 - 8 && Fits(bs, request)
    ensures var m := DoMalloc(bs, request);
      if m.ptr == 0 then m.blocks == bs else exists i :: Grants(bs, request, m, i)
  {
    var size := AlignSize(request);
    AlignSizeExact(request);
    MallocKeeps(bs, request);
    var m := DoMalloc(bs, request);
    match WorstFit(bs, size)
    case None =>
    case Some(i) =>
      TakeOwns(bs, i, size);
      forall p
        ensures Live(m.blocks, p) <==> Live(bs, p) || p == m.ptr
      {
        TakeLive(bs, i, size, p);
      }
      forall j | 0 <= j < |m.blocks| && j != i
        ensures Beside(m.blocks[i], m.blocks[j])
      {
        Exclusive(m.blocks, i, j);
      }
      Exclusive(m.blocks, i, 0);
      NotLive(bs, i);
      assert Grants(bs, request, m, i);
  }

  lemma TakeOwns(bs: seq<Block>, i: nat, size: nat)
    requires Heap(bs) && Inner(bs, i) && bs[i].free && bs[i].size >= size
    ensures var r := Take(bs, i, size);
      Owns(r, i, bs[i].Payload()) && size <= r[i].size < size + HEADER && bs[i].Payload() % 8 == 4
  {
    assert BlockOk(bs, i);
  }

  lemma NotLive(bs: seq<Block>, i: nat)
    requires Heap(bs) && Inner(bs, i) && bs[i].free
    ensures !Live(bs, bs[i].Payload())
  {
    if Live(bs, bs[i].Payload()) {
      var j : nat :| Owns(bs, j, bs[i].Payload());
      AddrDistinct(bs, i, j);
    }
  }

  // ---------------------------------------------------------------- how much is free

  /** Bytes of all the free payloads. */
  function FreeBytes(bs: seq<Block>): nat {
    if bs == [] then 0 else FreeIn(bs[0]) + FreeBytes(bs[1..])
  }

  lemma {:induction false} FreeBytesJoin(a: seq<Block>, b: seq<Block>)
    ensures FreeBytes(a + b) == FreeBytes(a) + FreeBytes(b)
  {
    if a == [] {
      assert a + b == b;
    } else {
      assert (a + b)[1..] == a[1..] + b;
      FreeBytesJoin(a[1..], b);
    }
  }

  /** What replacing blocks `lo` to `hi`, exclusive, does to the sum. */
  lemma FreeBytesReplaced(bs: seq<Block>, lo: nat, hi: nat, mid: seq<Block>)
    requires lo <= hi <= |bs|
    ensures FreeBytes(bs[..lo] + mid + bs[hi..]) - FreeBytes(bs) == FreeBytes(mid) - FreeBytes(bs[lo..hi])
  {
    FreeBytesJoin(bs[..lo] + mid, bs[hi..]);
    FreeBytesJoin(bs[..lo], mid);
    FreeBytesJoin(bs[..lo] + bs[lo..hi], bs[hi..]);
    FreeBytesJoin(bs[..lo], bs[lo..hi]);
    assert bs[..lo] + bs[lo..hi] + bs[hi..] == bs;
  }

  function FreeIn(b: Block): nat {
    if b.free then b.size else 0
  }

  lemma FreeBytesTwo(a: Block, b: Block)
    ensures FreeBytes([a]) == FreeIn(a) && FreeBytes([b]) == FreeIn(b) && FreeBytes([a, b]) == FreeIn(a) + FreeIn(b)
  {
    assert [a][1..] == [] && [b][1..] == [];
    FreeBytesJoin([a], [b]);
  }

  /** Of the block used, what lies beyond the size and a header stays free. */
  lemma TakeUses(bs: seq<Block>, i: nat, size: nat)
    requires i < |bs| && bs[i].free && bs[i].size >= size
    ensures FreeBytes(bs) - FreeBytes(Take(bs, i, size)) ==
      if bs[i].size >= size + HEADER then size + HEADER else bs[i].size
  {
    var b := bs[i];
    assert bs[i..i + 1] == [b];
    FreeBytesTwo(b, b.(free := false));
    if b.size >= size + HEADER {
      FreeBytesReplaced(bs, i, i + 1, Split(b, size));
      FreeBytesTwo(Split(b, size)[0], Split(b, size)[1]);
    } else {
      FreeBytesReplaced(bs, i, i + 1, [b.(free := false)]);
      assert bs[i := b.(free := false)] == bs[..i] + [b.(free := false)] + bs[i + 1..];
    }
  }

  /**
    A request costs the heap exactly the rounded request and a header, or a block that holds
    it and has no room for another header; if nothing is found it costs nothing.
   */
  lemma MallocUses(bs: seq<Block>, request: nat)
    requires Sound(bs) && request < U32
    ensures var used, n := FreeBytes(bs) - FreeBytes(DoMalloc(bs, request).blocks), AlignSize(request);
      if DoMalloc(bs, request).ptr == 0 then used == 0
      else used == n + HEADER || (n <= used < n + HEADER && exists j :: Inner(bs, j) && bs[j].free && bs[j].size == used)
  {
    match WorstFit(bs, AlignSize(request))
    case None =>
    case Some(i) => TakeUses(bs, i, AlignSize(request));
  }

  /** `free` gives back the payload, and a header for each neighbour it is merged with. */
  lemma FreeGivesBack(bs: seq<Block>, i: nat)
    requires Heap(bs) && Inner(bs, i) && !bs[i].free
    ensures var lo, hi := MergeFrom(bs, i), MergeTo(bs, i);
      FreeBytes(Release(bs, i)) - FreeBytes(bs) == bs[i].size + HEADER * (hi - lo - 1)
  {
    ReleaseIs(bs, i, MergeFrom(bs, i), MergeTo(bs, i));
    ReplacedByOne(bs, MergeFrom(bs, i), MergeTo(bs, i), Whole(bs, MergeFrom(bs, i), MergeTo(bs, i)), Release(bs, i));
    MergedSizes(bs, i);
  }

  /** The free block from the header of block `lo` to the end of block `hi - 1`. */
  function Whole(bs: seq<Block>, lo: nat, hi: nat): Block
    requires lo < hi <= |bs| && bs[hi - 1].End() >= bs[lo].Payload()
  {
    Block(bs[lo].addr, bs[hi - 1].End() - bs[lo].Payload(), true)
  }

  lemma ReleaseIs(bs: seq<Block>, i: nat, lo: nat, hi: nat)
    requires Heap(bs) && Inner(bs, i) && lo == MergeFrom(bs, i) && hi == MergeTo(bs, i)
    ensures hi <= |bs| - 1 && bs[hi - 1].End() >= bs[lo].Payload()
    ensures Release(bs, i) == bs[..lo] + [Whole(bs, lo, hi)] + bs[hi..]
  {
    ReleaseMerges(bs, i);
  }

  lemma ReplacedByOne(bs: seq<Block>, lo: nat, hi: nat, b: Block, r: seq<Block>)
    requires lo < hi <= |bs| && b.free && r == bs[..lo] + [b] + bs[hi..]
    ensures FreeBytes(r) - FreeBytes(bs) == b.size - FreeBytes(bs[lo..hi])
  {
    FreeBytesReplaced(bs, lo, hi, [b]);
    FreeBytesTwo(b, b);
  }

  /** The merged payload spans the payloads, and the headers between them. */
  lemma MergedSizes(bs: seq<Block>, i: nat)
    requires Heap(bs) && Inner(bs, i) && !bs[i].free
    ensures var lo, hi := MergeFrom(bs, i), MergeTo(bs, i);
      bs[hi - 1].End() - bs[lo].Payload() == bs[i].size + FreeBytes(bs[lo..hi]) + HEADER * (hi - lo - 1)
  {
    assert BlockOk(bs, i - 1) && BlockOk(bs, i);
    var lo, hi := MergeFrom(bs, i), MergeTo(bs, i);
    assert bs[lo..hi] == bs[lo..i] + [bs[i]] + bs[i + 1..hi];
    FreeBytesJoin(bs[lo..i] + [bs[i]], bs[i + 1..hi]);
    FreeBytesJoin(bs[lo..i], [bs[i]]);
    FreeBytesTwo(bs[i - 1], bs[i + 1]);
    FreeBytesTwo(bs[i], bs[i]);
    assert bs[lo..i] == if lo < i then [bs[i - 1]] else [];
    assert bs[i + 1..hi] == if hi > i + 1 then [bs[i + 1]] else [];
  }

  /**
    A request past 2^32 - 8 is rounded up to nothing: it succeeds whenever the search finds
    any free block, and gives fewer than 16 bytes.
   */
  lemma HugeRequestsWrap(bs: seq<Block>, request: nat)
    requires Sound(bs) && U32 - 8 < request < U32
    ensures var m := DoMalloc(bs, request);
      && (m.ptr != 0 <==> SearchStarts(bs))
      && (m.ptr != 0 ==> exists i: nat :: Owns(m.blocks, i, m.ptr) && m.blocks[i].size < HEADER)
  {
    AlignSizeExact(request);
    WorstFitExact(bs, 0);
    assert Inner(bs, |bs| - 2) && bs[|bs| - 2].size >= 0;
    if WorstFit(bs, 0).Some? {
      TakeOwns(bs, WorstFit(bs, 0).value, 0);
    }
  }

  // ---------------------------------------------------------------- restoration

  /** Freeing what was just allocated gives back exactly the blocks there were. */
  lemma FreeUndoesMalloc(bs: seq<Block>, request: nat)
    requires Sound(bs) && request < U32 && Fits(bs, request)
    ensures var m := DoMalloc(bs, request); DoFree(m.blocks, m.ptr) == bs
  {
    var size := AlignSize(request);
    AlignSizeExact(request);
    MallocKeeps(bs, request);
    match WorstFit(bs, size)
    case None =>
    case Some(i) =>
      var r := Take(bs, i, size);
      TakeOwns(bs, i, size);
      FreeOfLive(r, i, bs[i].Payload());
      FreeNeighbours(bs, i);
      ReleaseUndoesTake(bs, i, size);
  }

  lemma ReleaseUndoesTake(bs: seq<Block>, i: nat, size: nat)
    requires Inner(bs, i) && bs[i].free && !bs[i + 1].free && !bs[i - 1].free
    ensures Release(Take(bs, i, size), i) == bs
  {
    var r := Take(bs, i, size);
    var b1 := r[i := r[i].(free := true)];
    if bs[i].size >= size + HEADER {
      assert b1[i + 2..] == bs[i + 1..] && b1[..i] == bs[..i];
      assert Join(b1, i) == bs;
    } else {
      assert b1 == bs;
    }
  }

  lemma InnerFree(bs: seq<Block>, i: nat)
    requires Inner(bs, i) && forall p :: !Live(bs, p)
    ensures bs[i].free
  {
    if !bs[i].free {
      assert Owns(bs, i, bs[i].Payload());
      assert Live(bs, bs[i].Payload());
    }
  }

  /** A heap nobody owns anything in is the heap as it was initialised. */
  lemma NothingLive(bs: seq<Block>)
    requires Sound(bs) && forall p :: !Live(bs, p)
    ensures bs == Init()
  {
    InnerFree(bs, 1);
    if |bs| > 3 {
      InnerFree(bs, 2);
      FreeNeighbours(bs, 1);
    }
    assert BlockOk(bs, 0);
  }

  // ---------------------------------------------------------------- runs

  datatype Op = DoMallocOf(request: nat) | DoFreeOf(ptr: nat)

  /** 32-bit arguments. */
  predicate Valid(op: Op) {
    match op
    case DoMallocOf(request) => request < U32
    case DoFreeOf(ptr) => ptr < U32
  }

  function Step(bs: seq<Block>, op: Op): (r: seq<Block>)
    requires |bs| >= 3
  {
    match op
    case DoMallocOf(request) => DoMalloc(bs, request).blocks
    case DoFreeOf(ptr) => DoFree(bs, ptr)
  }

  /** A request fits, and the head sentinel, which `free` does not reject, is not freed. */
  predicate StepFits(bs: seq<Block>, op: Op)
    requires |bs| >= 3
  {
    match op
    case DoMallocOf(request) => Fits(bs, request)
    case DoFreeOf(ptr) => ptr != HEAD + HEADER
  }

  lemma StepKeeps(bs: seq<Block>, op: Op)
    requires Sound(bs) && Valid(op)
    ensures Sound(Step(bs, op)) <==> StepFits(bs, op)
  {
    match op
    case DoMallocOf(request) => MallocKeeps(bs, request);
    case DoFreeOf(ptr) =>
      if Live(bs, ptr) {
        var i : nat :| Owns(bs, i, ptr);
        FreeOfLive(bs, i, ptr);
        ReleaseKeeps(bs, i);
        FreeOfHead(bs);
      } else if ptr == HEAD + HEADER {
        FreeOfHead(bs);
      } else {
        FreeOfOthers(bs, ptr);
      }
  }

  /** The run from `bs`, as long as it stays sound. */
  predicate SoundRun(bs: seq<Block>, ops: seq<Op>)
    decreases |ops|
  {
    Sound(bs) && (ops == [] || SoundRun(Step(bs, ops[0]), ops[1..]))
  }

  predicate FittingRun(bs: seq<Block>, ops: seq<Op>)
    decreases |ops|
  {
    ops == [] || (|bs| >= 3 && StepFits(bs, ops[0]) && FittingRun(Step(bs, ops[0]), ops[1..]))
  }

  function Run(bs: seq<Block>, ops: seq<Op>): seq<Block>
    requires SoundRun(bs, ops)
    decreases |ops|
  {
    if ops == [] then bs else Run(Step(bs, ops[0]), ops[1..])
  }

  lemma {:induction false} RunKeeps(bs: seq<Block>, ops: seq<Op>)
    requires Sound(bs) && forall i :: 0 <= i < |ops| ==> Valid(ops[i])
    ensures SoundRun(bs, ops) <==> FittingRun(bs, ops)
    ensures SoundRun(bs, ops) ==> Sound(Run(bs, ops))
    decreases |ops|
  {
    if ops != [] {
      StepKeeps(bs, ops[0]);
      if StepFits(bs, ops[0]) {
        RunKeeps(Step(bs, ops[0]), ops[1..]);
      }
    }
  }

  /** Once everything has been freed, in whatever order, the heap is as `init_heap` left it. */
  lemma AllFreed(ops: seq<Op>)
    requires forall i :: 0 <= i < |ops| ==> Valid(ops[i])
    requires FittingRun(Init(), ops)
    ensures SoundRun(Init(), ops)
    ensures (forall p :: !Live(Run(Init(), ops), p)) ==> Run(Init(), ops) == Init()
  {
    InitIsSound();
    RunKeeps(Init(), ops);
    if forall p :: !Live(Run(Init(), ops), p) {
      NothingLive(Run(Init(), ops));
    }
  }
}
