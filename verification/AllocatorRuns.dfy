/**
  Whole runs of the allocator on memory, with the owners writing to their payloads in
  between: nothing a caller stored is lost.
 */
module AllocatorRuns {
  import opened Common
  import opened HeapBlocks
  import HR = HeapRuns
  import opened KernelHeap

  datatype Call = Do(op: HR.Op) | Store(w: int, value: int)

  /** `b` is an allocated block of the heap. */
  ghost predicate Held(bs: seq<Block>, b: Block) {
    !b.free && exists i :: Inner(bs, i) && bs[i] == b
  }

  predicate InPayload(b: Block, w: int) {
    b.Payload() <= w < b.End()
  }

  /** Requests fit, `free` does not get the head sentinel, and stores go to a live payload. */
  ghost predicate Allowed(bs: seq<Block>, c: Call) {
    && |bs| >= 3
    && match c
       case Do(op) => HR.Valid(op) && HR.StepFits(bs, op)
       case Store(w, _) => exists b :: Held(bs, b) && InPayload(b, w)
  }

  function Next(bs: seq<Block>, c: Call): seq<Block>
    requires |bs| >= 3
  {
    match c
    case Do(op) => HR.Step(bs, op)
    case Store(_, _) => bs
  }

  ghost predicate AllowedThroughout(bs: seq<Block>, calls: seq<Call>)
    decreases |calls|
  {
    calls == [] || (Allowed(bs, calls[0]) && AllowedThroughout(Next(bs, calls[0]), calls[1..]))
  }

  ghost function Final(bs: seq<Block>, calls: seq<Call>): seq<Block>
    requires AllowedThroughout(bs, calls)
    decreases |calls|
  {
    if calls == [] then bs else Final(Next(bs, calls[0]), calls[1..])
  }

  // ---------------------------------------------------------------- what survives

  /** The call neither frees block `b` nor stores to its word `w`. */
  predicate Leaves(c: Call, b: Block, w: int) {
    c != Do(HR.DoFreeOf(b.Payload())) && !(c.Store? && c.w == w)
  }

  predicate Spares(calls: seq<Call>, b: Block, w: int) {
    forall c <- calls :: Leaves(c, b, w)
  }

  /** Blocks that are not freed stay where they are, as long as they are, with the words nobody stored to. */
  ghost predicate Survives(m0: Memory, bs0: seq<Block>, calls: seq<Call>, m1: Memory, bs1: seq<Block>) {
    forall b: Block, w: int {:trigger Spares(calls, b, w)} ::
      Held(bs0, b) && InPayload(b, w) && Spares(calls, b, w) ==> Held(bs1, b) && Read(m1, w) == Read(m0, w)
  }

  lemma SurvivesLonger(m0: Memory, bs0: seq<Block>, calls: seq<Call>, m1: Memory, bs1: seq<Block>, c: Call, m2: Memory, bs2: seq<Block>)
    requires Survives(m0, bs0, calls, m1, bs1) && Survives(m1, bs1, [c], m2, bs2)
    ensures Survives(m0, bs0, calls + [c], m2, bs2)
  {
    forall b: Block, w: int | Held(bs0, b) && InPayload(b, w) && Spares(calls + [c], b, w)
      ensures Held(bs2, b) && Read(m2, w) == Read(m0, w)
    {
      assert c in calls + [c] && forall d <- calls :: d in calls + [c];
      assert Spares(calls, b, w) && Spares([c], b, w);
    }
  }

  lemma TakeHeld(bs: seq<Block>, i: nat, size: nat, b: Block)
    requires Inner(bs, i) && bs[i].free && Held(bs, b)
    ensures Held(Take(bs, i, size), b)
  {
    var r := Take(bs, i, size);
    var j :| Inner(bs, j) && bs[j] == b;
    if bs[i].size >= size + HEADER {
      SplitAt(bs, i, size);
      assert r[if j < i then j else j + 1] == b;
    } else {
      assert r[j] == b;
    }
  }

  lemma MergedHeld(bs: seq<Block>, lo: nat, hi: nat, i: nat, b: Block)
    requires 1 <= lo <= i < hi <= |bs| - 1 && bs[hi - 1].End() >= bs[lo].Payload()
    requires (forall k :: lo <= k < hi && k != i ==> bs[k].free) && Held(bs, b) && b != bs[i]
    ensures Held(Merged(bs, lo, hi), b)
  {
    MergedAt(bs, lo, hi);
    var j :| Inner(bs, j) && bs[j] == b;
    var h := if j < lo then j else j - (hi - lo - 1);
    assert Inner(Merged(bs, lo, hi), h) && Merged(bs, lo, hi)[h] == b;
  }

  lemma ReleaseHeld(bs: seq<Block>, i: nat, b: Block)
    requires Heap(bs) && Inner(bs, i) && Held(bs, b) && b != bs[i]
    ensures Held(Release(bs, i), b)
  {
    ReleaseMerges(bs, i);
    MergedHeld(bs, MergeFrom(bs, i), MergeTo(bs, i), i, b);
  }

  lemma FreeHeld(bs: seq<Block>, ptr: nat, b: Block)
    requires Heap(bs) && ptr < U32 && ptr != HEAD + HEADER && Held(bs, b) && ptr != b.Payload()
    ensures Held(DoFree(bs, ptr), b)
  {
    if HR.Live(bs, ptr) {
      var i: nat :| HR.Owns(bs, i, ptr);
      HR.FreeOfLive(bs, i, ptr);
      ReleaseHeld(bs, i, b);
    } else {
      HR.FreeOfOthers(bs, ptr);
    }
  }

  lemma HeldKept(m0: Memory, m1: Memory, bs: seq<Block>, b: Block, w: int)
    requires Sound(bs) && OnlyHeaders(m0, m1, bs) && Held(bs, b) && InPayload(b, w)
    ensures Read(m1, w) == Read(m0, w)
  {
    var i :| Inner(bs, i) && bs[i] == b;
    PayloadKept(m0, m1, bs, i, w);
  }

  lemma MallocSurvives(m0: Memory, bs: seq<Block>, request: nat, m1: Memory)
    requires Sound(bs) && request < U32 && Fits(bs, request)
    requires OnlyHeaders(m0, m1, DoMalloc(bs, request).blocks)
    ensures Survives(m0, bs, [Do(HR.DoMallocOf(request))], m1, DoMalloc(bs, request).blocks)
  {
    var r := DoMalloc(bs, request).blocks;
    MallocKeeps(bs, request);
    forall b: Block, w: int | Held(bs, b) && InPayload(b, w)
      ensures Held(r, b) && Read(m1, w) == Read(m0, w)
    {
      match WorstFit(bs, AlignSize(request)) {
        case None =>
        case Some(i) => TakeHeld(bs, i, AlignSize(request), b);
      }
      HeldKept(m0, m1, r, b, w);
    }
  }

  lemma FreeSurvives(m0: Memory, bs: seq<Block>, ptr: nat, m1: Memory)
    requires Sound(bs) && ptr < U32 && ptr != HEAD + HEADER && OnlyHeaders(m0, m1, bs)
    ensures Survives(m0, bs, [Do(HR.DoFreeOf(ptr))], m1, DoFree(bs, ptr))
  {
    forall b: Block, w: int | Held(bs, b) && InPayload(b, w) && Spares([Do(HR.DoFreeOf(ptr))], b, w)
      ensures Held(DoFree(bs, ptr), b) && Read(m1, w) == Read(m0, w)
    {
      assert Leaves([Do(HR.DoFreeOf(ptr))][0], b, w);
      FreeHeld(bs, ptr, b);
      HeldKept(m0, m1, bs, b, w);
    }
  }

  lemma StoreSurvives(m0: Memory, bs: seq<Block>, w: int, value: int)
    ensures Survives(m0, bs, [Store(w, value)], m0[w := value], bs)
  {
    forall b: Block, v: int | Held(bs, b) && InPayload(b, v) && Spares([Store(w, value)], b, v)
      ensures Read(m0[w := value], v) == Read(m0, v)
    {
      assert Leaves([Store(w, value)][0], b, v);
    }
  }

  // ---------------------------------------------------------------- runs

  method Perform(a: Allocator, c: Call)
    requires a.Valid() && Allowed(a.blocks, c)
    modifies a
    ensures a.Valid() && a.blocks == Next(old(a.blocks), c)
    ensures Survives(old(a.mem), old(a.blocks), [c], a.mem, a.blocks)
  {
    ghost var m0, bs := a.mem, a.blocks;
    match c {
      case Do(DoMallocOf(request)) =>
        var _ := a.Malloc(request);
        MallocSurvives(m0, bs, request, a.mem);
      case Do(DoFreeOf(ptr)) =>
        var _ := a.Free(ptr);
        FreeSurvives(m0, bs, ptr, a.mem);
      case Store(w, value) =>
        a.mem := a.mem[w := value];
        ghost var b :| Held(bs, b) && InPayload(b, w);
        ghost var i :| Inner(bs, i) && bs[i] == b;
        PayloadWritesKeep(m0, a.mem, bs, i);
        StoreSurvives(m0, bs, w, value);
    }
  }

  /**
    After any run of fitting requests, frees and stores of owners the headers in memory are
    those of the list the run gives, and whatever was allocated before, and not freed, is
    still there with every word that was not stored to.
   */
  method Run(a: Allocator, calls: seq<Call>)
    requires a.Valid() && AllowedThroughout(a.blocks, calls)
    modifies a
    ensures a.Valid() && a.blocks == Final(old(a.blocks), calls)
    ensures Survives(old(a.mem), old(a.blocks), calls, a.mem, a.blocks)
  {
    ghost var m0, bs := a.mem, a.blocks;
    var i := 0;
    while i < |calls|
      invariant 0 <= i <= |calls| && a.Valid()
      invariant AllowedThroughout(a.blocks, calls[i..]) && Final(a.blocks, calls[i..]) == Final(bs, calls)
      invariant Survives(m0, bs, calls[..i], a.mem, a.blocks)
    {
      ghost var m1, b1 := a.mem, a.blocks;
      assert calls[i..][1..] == calls[i + 1..] && calls[..i + 1] == calls[..i] + [calls[i]];
      Perform(a, calls[i]);
      SurvivesLonger(m0, bs, calls[..i], m1, b1, calls[i], a.mem, a.blocks);
      i := i + 1;
    }
    assert calls[..i] == calls;
  }
}
