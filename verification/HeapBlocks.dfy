/**
  The kernel heap as the list of its blocks, with the operations of the allocator on that
  list.  `KernelHeap` does the same to the headers in memory.
 */
module HeapBlocks {
  import opened Common

  const HEAP_SPACE := 0xE800_0000
  const HEAP_SIZE := 0x0800_0000

  /** `sizeof(heap_t)` and `sizeof(block_t)`. */
  const HEAP_T := 12
  const HEADER := 16

  const HEAD := HEAP_SPACE + HEAP_T
  const TAIL := HEAP_SPACE + HEAP_SIZE - HEADER

  /** A block at `addr`; its payload is the `size` bytes behind the header. */
  datatype Block = Block(addr: nat, size: nat, free: bool) {
    function Payload(): nat {
      addr + HEADER
    }

    function End(): nat {
      addr + HEADER + size
    }
  }

  /**
    Block `i` begins at 4 modulo 8, the next one begins where it ends, and not both are
    free.  The tail is exempt from the second.
   */
  predicate BlockOk(bs: seq<Block>, i: int) {
    && 0 <= i < |bs| - 1
    && bs[i].addr % 8 == 4
    && (i < |bs| - 2 ==> bs[i + 1].addr == bs[i].End())
    && !(bs[i].free && bs[i + 1].free)
  }

  /**
    The list of blocks between two allocated sentinels of size zero.  `init_heap` makes the
    first free block one header too long, so the last block before the tail always ends at
    the end of the heap, past the tail's header; it is at least that long.
   */
  predicate Heap(bs: seq<Block>) {
    && |bs| >= 3
    && bs[0] == Block(HEAD, 0, false)
    && bs[|bs| - 1] == Block(TAIL, 0, false)
    && bs[|bs| - 2].End() == TAIL + HEADER
    && bs[|bs| - 2].size >= HEADER
    && forall i :: 0 <= i < |bs| - 1 ==> BlockOk(bs, i)
  }

  /** A heap whose last block is free: no allocated payload reaches into the tail's header. */
  predicate Sound(bs: seq<Block>) {
    Heap(bs) && bs[|bs| - 2].free
  }

  function Init(): seq<Block> {
    [Block(HEAD, 0, false), Block(HEAD + HEADER, TAIL - HEAD - HEADER, true), Block(TAIL, 0, false)]
  }

  lemma InitIsSound()
    ensures Sound(Init())
  {
    var bs := Init();
    assert BlockOk(bs, 0) && BlockOk(bs, 1);
  }

  // ---------------------------------------------------------------- worst fit

  /** The loop of `find_worst_fit` after looking at the blocks before `k`. */
  function Largest(bs: seq<Block>, k: nat): (r: nat)
    requires 2 <= k < |bs|
    ensures 1 <= r < k
    decreases k
  {
    if k == 2 then 1
    else
      var r := Largest(bs, k - 1);
      if bs[k - 1].free && bs[k - 1].size >= bs[r].size then k - 1 else r
  }

  function WorstFit(bs: seq<Block>, size: nat): (r: Option<nat>)
    requires |bs| >= 3
    ensures r.Some? ==> 1 <= r.value < |bs| - 1 && bs[r.value].free && bs[r.value].size >= size
  {
    var i := Largest(bs, |bs| - 1);
    if !bs[i].free || bs[i].size < size then None else Some(i)
  }

  predicate Inner(bs: seq<Block>, i: int) {
    1 <= i < |bs| - 1
  }

  /** `i` is the last of the largest free blocks. */
  ghost predicate LastLargestFree(bs: seq<Block>, i: nat) {
    && Inner(bs, i) && bs[i].free
    && (forall j :: Inner(bs, j) && bs[j].free ==> bs[j].size <= bs[i].size)
    && (forall j :: Inner(bs, j) && j > i && bs[j].free ==> bs[j].size < bs[i].size)
  }

  /** Some free block can displace the first one as the largest so far. */
  ghost predicate SearchStarts(bs: seq<Block>)
    requires |bs| >= 3
  {
    bs[1].free || exists i :: Inner(bs, i) && bs[i].free && bs[i].size >= bs[1].size
  }

  lemma {:induction false} LargestSoFar(bs: seq<Block>, k: nat)
    requires 2 <= k < |bs|
    ensures var r := Largest(bs, k);
      && (bs[r].free ==>
          && (forall j :: 1 <= j < k && bs[j].free ==> bs[j].size <= bs[r].size)
          && (forall j :: r < j < k && bs[j].free ==> bs[j].size < bs[r].size)
          && bs[r].size >= bs[1].size)
      && (!bs[r].free ==> r == 1 && forall j :: 1 <= j < k && bs[j].free ==> bs[j].size < bs[1].size)
    decreases k
  {
    if k > 2 {
      LargestSoFar(bs, k - 1);
    }
  }

  /**
    The search finds a block exactly when a large enough free block exists and the block it
    starts from is free or no larger than some free block; what it finds is the largest
    free block, the last one on ties.
   */
  lemma WorstFitExact(bs: seq<Block>, size: nat)
    requires |bs| >= 3
    ensures WorstFit(bs, size).Some? <==>
      SearchStarts(bs) && exists i :: Inner(bs, i) && bs[i].free && bs[i].size >= size
    ensures WorstFit(bs, size).Some? ==> LastLargestFree(bs, WorstFit(bs, size).value)
  {
    LargestSoFar(bs, |bs| - 1);
    var r := Largest(bs, |bs| - 1);
    if WorstFit(bs, size).Some? {
      assert Inner(bs, r) && bs[r].size >= bs[1].size;
    }
  }

  // ---------------------------------------------------------------- malloc

  /** `ALIGN_SIZE` on a u32. */
  function AlignSize(size: nat): nat {
    var s := (size + 7) % U32;
    s - s % 8
  }

  /** Rounding up is exact for requests up to 2^32 - 8, and wraps to zero beyond. */
  lemma AlignSizeExact(size: nat)
    requires size < U32
    ensures AlignSize(size) % 8 == 0
    ensures size <= AlignSize(size) < size + 8 <==> size <= U32 - 8
    ensures size > U32 - 8 ==> AlignSize(size) == 0
  {
  }

  function Split(b: Block, size: nat): seq<Block>
    requires b.size >= size + HEADER
  {
    [Block(b.addr, size, false), Block(b.addr + HEADER + size, b.size - size - HEADER, true)]
  }

  /** The blocks after taking block `i` for `size` bytes. */
  function Take(bs: seq<Block>, i: nat, size: nat): seq<Block>
    requires i < |bs|
  {
    if bs[i].size >= size + HEADER then bs[..i] + Split(bs[i], size) + bs[i + 1..]
    else bs[i := bs[i].(free := false)]
  }

  datatype Malloc = Malloc(blocks: seq<Block>, ptr: nat)

  function DoMalloc(bs: seq<Block>, request: nat): Malloc
    requires |bs| >= 3
  {
    match WorstFit(bs, AlignSize(request))
    case None => Malloc(bs, 0)
    case Some(i) => Malloc(Take(bs, i, AlignSize(request)), bs[i].Payload())
  }

  /**
    One request can starve the heap.  With the whole free block of `init_heap` at hand, after
    a request of more than about half of it no further one succeeds, however small: the search
    starts from the block just allocated and finds no free block as large.  A rest too small
    for the tail's header, which the premise leaves out, is no block of a list: see `SmallRest`
    in `KernelHeap`.
   */
  lemma FirstRequestStarves(request: nat)
    requires request < U32
    requires var n, whole := AlignSize(request), Init()[1].size; n + 2 * HEADER <= whole || whole < n + HEADER
    ensures var bs, n, whole := DoMalloc(Init(), request).blocks, AlignSize(request), Init()[1].size;
      && ((forall k: nat :: WorstFit(bs, k) == None) <==> n <= whole < 2 * n + HEADER)
      && (n + 2 * HEADER <= whole ==> Sound(bs) && bs[2] == Block(HEAD + 2 * HEADER + n, whole - n - HEADER, true))
  {
    var bs, n, whole := DoMalloc(Init(), request).blocks, AlignSize(request), Init()[1].size;
    AlignSizeExact(request);
    InitIsSound();
    assert Largest(Init(), 2) == 1;
    if n + 2 * HEADER <= whole {
      MallocKeeps(Init(), request);
    }
    assert WorstFit(bs, 0) == None <==> n <= whole < 2 * n + HEADER by {
      if n + HEADER <= whole {
        assert Largest(bs, 2) == 1;
      }
    }
    forall k: nat | WorstFit(bs, 0) == None
      ensures WorstFit(bs, k) == None
    {
    }
  }

  /**
    The block found is not the one before the tail, or keeps room for another header and
    the 16 bytes it has too many.
   */
  predicate Fits(bs: seq<Block>, request: nat)
    requires |bs| >= 3
  {
    match WorstFit(bs, AlignSize(request))
    case None => true
    case Some(i) => i < |bs| - 2 || bs[i].size >= AlignSize(request) + 2 * HEADER
  }

  lemma SplitAt(bs: seq<Block>, i: nat, size: nat)
    requires i < |bs| && bs[i].size >= size + HEADER
    ensures var r := Take(bs, i, size);
      && |r| == |bs| + 1
      && (forall j :: 0 <= j < i ==> r[j] == bs[j])
      && r[i] == Split(bs[i], size)[0] && r[i + 1] == Split(bs[i], size)[1]
      && (forall j :: i + 1 < j < |r| ==> r[j] == bs[j - 1])
  {
  }

  lemma SplitKeeps(bs: seq<Block>, i: nat, size: nat, r: seq<Block>)
    requires Heap(bs) && Inner(bs, i) && bs[i].free && size % 8 == 0
    requires bs[i].size >= size + HEADER && (i < |bs| - 2 || bs[i].size >= size + 2 * HEADER)
    requires r == Take(bs, i, size)
    ensures Heap(r)
  {
    SplitAt(bs, i, size);
    assert BlockOk(bs, i);
    forall j | 0 <= j < |r| - 1
      ensures BlockOk(r, j)
    {
      if j < i {
        assert BlockOk(bs, j);
      } else if j > i {
        assert BlockOk(bs, j - 1);
      }
    }
  }

  lemma TakeKeeps(bs: seq<Block>, i: nat, size: nat)
    requires Heap(bs) && Inner(bs, i) && bs[i].free && size % 8 == 0
    requires i < |bs| - 2 || bs[i].size >= size + 2 * HEADER
    ensures Heap(Take(bs, i, size)) && (Sound(bs) ==> Sound(Take(bs, i, size)))
  {
    var r := Take(bs, i, size);
    if bs[i].size >= size + HEADER {
      SplitKeeps(bs, i, size, r);
      SplitAt(bs, i, size);
    } else {
      forall j | 0 <= j < |r| - 1
        ensures BlockOk(r, j)
      {
        assert BlockOk(bs, j);
      }
    }
  }

  /** `malloc` keeps the heap sound exactly when the request fits. */
  lemma MallocKeeps(bs: seq<Block>, request: nat)
    requires Sound(bs) && request < U32
    ensures Sound(DoMalloc(bs, request).blocks) <==> Fits(bs, request)
  {
    AlignSizeExact(request);
    var size := AlignSize(request);
    match WorstFit(bs, size)
    case None =>
    case Some(i) =>
      if Fits(bs, request) {
        TakeKeeps(bs, i, size);
      } else {
        var r := Take(bs, i, size);
        if bs[i].size >= size + HEADER {
          assert r[|r| - 2] == Split(bs[i], size)[1];
        }
      }
  }

  // ---------------------------------------------------------------- free

  /** `heap_block_join`: block `i` swallows the next one. */
  function Join(bs: seq<Block>, i: nat): seq<Block>
    requires i + 1 < |bs|
  {
    bs[..i] + [Block(bs[i].addr, bs[i].size + HEADER + bs[i + 1].size, true)] + bs[i + 2..]
  }

  function Release(bs: seq<Block>, i: nat): seq<Block>
    requires Inner(bs, i)
  {
    var b1 := bs[i := bs[i].(free := true)];
    var b2 := if b1[i + 1].free then Join(b1, i) else b1;
    if b2[i - 1].free then Join(b2, i - 1) else b2
  }

  /** The position, from `k`, of the block with this address before the tail; |bs| if none. */
  function Find(bs: seq<Block>, addr: int, k: nat): (r: nat)
    requires k < |bs|
    ensures k <= r <= |bs| && (r < |bs| ==> r < |bs| - 1 && bs[r].addr == addr)
    ensures forall j :: k <= j < |bs| - 1 && j < r ==> bs[j].addr != addr
    decreases |bs| - k
  {
    if k == |bs| - 1 then |bs| else if bs[k].addr == addr then k else Find(bs, addr, k + 1)
  }

  /** `ptr - sizeof(block_t)` on a 32-bit pointer. */
  function HeaderOf(ptr: nat): nat {
    (ptr - HEADER) % U32
  }

  /**
    What `free` has done to the head sentinel, whose payload address it does not reject, when
    it goes on to read the header before it through a null link.
   */
  function HeadReleased(bs: seq<Block>): seq<Block>
    requires |bs| >= 3
  {
    var b1 := bs[0 := bs[0].(free := true)];
    if b1[1].free then Join(b1, 0) else b1
  }

  function DoFree(bs: seq<Block>, ptr: nat): seq<Block>
    requires |bs| >= 3
  {
    if ptr == 0 then bs
    else
      var i := Find(bs, HeaderOf(ptr), 0);
      if i == 0 then HeadReleased(bs) else if Inner(bs, i) then Release(bs, i) else bs
  }

  /** Blocks `lo` to `hi`, exclusive, merged into one free block. */
  function Merged(bs: seq<Block>, lo: nat, hi: nat): seq<Block>
    requires lo < hi <= |bs| && bs[hi - 1].End() >= bs[lo].Payload()
  {
    bs[..lo] + [Block(bs[lo].addr, bs[hi - 1].End() - bs[lo].Payload(), true)] + bs[hi..]
  }

  function MergeFrom(bs: seq<Block>, i: nat): nat
    requires Inner(bs, i)
  {
    if bs[i - 1].free then i - 1 else i
  }

  function MergeTo(bs: seq<Block>, i: nat): nat
    requires Inner(bs, i)
  {
    if bs[i + 1].free then i + 2 else i + 1
  }

  lemma JoinRight(bs: seq<Block>, i: nat)
    requires i + 1 < |bs| && bs[i + 1].addr == bs[i].End()
    ensures Join(Merged(bs, i, i + 1), i) == Merged(bs, i, i + 2)
  {
    assert Merged(bs, i, i + 1)[i + 2..] == bs[i + 2..];
  }

  lemma JoinLeft(bs: seq<Block>, lo: nat, hi: nat)
    requires 1 <= lo < hi <= |bs| && bs[hi - 1].End() >= bs[lo].Payload()
    requires bs[lo].addr == bs[lo - 1].End()
    ensures Join(Merged(bs, lo, hi), lo - 1) == Merged(bs, lo - 1, hi)
  {
    var m := Merged(bs, lo, hi);
    assert m[lo - 1] == bs[lo - 1] && m[..lo - 1] == bs[..lo - 1] && m[lo + 1..] == bs[hi..];
  }

  /** A block given back is merged with whichever of its neighbours is free. */
  lemma ReleaseMerges(bs: seq<Block>, i: nat)
    requires Heap(bs) && Inner(bs, i)
    ensures MergeTo(bs, i) <= |bs| - 1 && MergeFrom(bs, i) >= 1
    ensures bs[MergeTo(bs, i) - 1].End() >= bs[MergeFrom(bs, i)].Payload()
    ensures forall k :: MergeFrom(bs, i) <= k < MergeTo(bs, i) && k != i ==> bs[k].free
    ensures Release(bs, i) == Merged(bs, MergeFrom(bs, i), MergeTo(bs, i))
  {
    assert BlockOk(bs, i - 1) && BlockOk(bs, i);
    var hi := MergeTo(bs, i);
    assert bs[i := bs[i].(free := true)] == Merged(bs, i, i + 1);
    if bs[i + 1].free {
      JoinRight(bs, i);
    }
    assert Merged(bs, i, hi)[i - 1] == bs[i - 1];
    if bs[i - 1].free {
      JoinLeft(bs, i, hi);
    }
  }

  lemma MergedAt(bs: seq<Block>, lo: nat, hi: nat)
    requires lo < hi <= |bs| && bs[hi - 1].End() >= bs[lo].Payload()
    ensures var r := Merged(bs, lo, hi);
      && |r| == |bs| - (hi - lo - 1)
      && r[lo].free && r[lo].addr == bs[lo].addr && r[lo].End() == bs[hi - 1].End()
      && (forall j :: 0 <= j < lo ==> r[j] == bs[j])
      && (forall j :: lo < j < |r| ==> r[j] == bs[j + (hi - lo - 1)])
  {
  }

  lemma MergedKeeps(bs: seq<Block>, lo: nat, hi: nat)
    requires Heap(bs) && 1 <= lo < hi <= |bs| - 1 && bs[hi - 1].End() >= bs[lo].Payload()
    requires bs[hi - 1].End() - bs[lo].Payload() >= bs[hi - 1].size
    requires !bs[lo - 1].free && !bs[hi].free
    ensures Heap(Merged(bs, lo, hi)) && (Sound(bs) ==> Sound(Merged(bs, lo, hi)))
  {
    var r := Merged(bs, lo, hi);
    var d := hi - lo - 1;
    MergedAt(bs, lo, hi);
    forall j | 0 <= j < |r| - 1
      ensures BlockOk(r, j)
    {
      assert BlockOk(bs, lo);
      assert BlockOk(bs, if j < lo then j else j + d);
    }
  }

  lemma FreeNeighbours(bs: seq<Block>, i: nat)
    requires Heap(bs) && Inner(bs, i) && bs[i].free
    ensures !bs[i - 1].free && !bs[i + 1].free
  {
    assert BlockOk(bs, i - 1) && BlockOk(bs, i);
  }

  lemma MergeBounds(bs: seq<Block>, i: nat)
    requires Heap(bs) && Inner(bs, i)
    ensures var lo, hi := MergeFrom(bs, i), MergeTo(bs, i);
      && 1 <= lo < hi <= |bs| - 1 && !bs[lo - 1].free && !bs[hi].free
      && bs[hi - 1].End() - bs[lo].Payload() >= bs[hi - 1].size
  {
    assert BlockOk(bs, i - 1) && BlockOk(bs, i);
    if bs[i - 1].free {
      FreeNeighbours(bs, i - 1);
    }
    if bs[i + 1].free {
      FreeNeighbours(bs, i + 1);
    }
  }

  lemma ReleaseKeeps(bs: seq<Block>, i: nat)
    requires Heap(bs) && Inner(bs, i)
    ensures Heap(Release(bs, i)) && (Sound(bs) ==> Sound(Release(bs, i)))
  {
    ReleaseMerges(bs, i);
    MergeBounds(bs, i);
    MergedKeeps(bs, MergeFrom(bs, i), MergeTo(bs, i));
  }
}
