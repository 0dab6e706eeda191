/**
  The allocator on memory: block headers of four words at computed addresses, linked both
  ways.  `blocks` is the list they represent.
 */
module KernelHeap {
  import opened Common
  import opened HeapBlocks
  import opened HeapRuns

  /** Memory as 32-bit words; the heap only touches addresses that are multiples of four. */
  type Memory = map<int, int>

  function Read(mem: Memory, a: int): int {
    if a in mem then mem[a] else 0
  }

  /** Offsets of the fields of `block_t`. */
  const PREV := 0
  const SIZE := 4
  const FREE := 8
  const NEXT := 12

  function Flag(free: bool): int {
    if free then 1 else 0
  }

  predicate HeaderAt(mem: Memory, b: Block, prev: int, next: int) {
    && Read(mem, b.addr + PREV) == prev && Read(mem, b.addr + SIZE) == b.size
    && Read(mem, b.addr + FREE) == Flag(b.free) && Read(mem, b.addr + NEXT) == next
  }

  /** `*p = (block_t) {...}` */
  function WriteHeader(mem: Memory, b: Block, prev: int, next: int): Memory {
    mem[b.addr + PREV := prev][b.addr + SIZE := b.size][b.addr + FREE := Flag(b.free)][b.addr + NEXT := next]
  }

  function PrevOf(bs: seq<Block>, i: nat): int
    requires i < |bs|
  {
    if i == 0 then 0 else bs[i - 1].addr
  }

  function NextOf(bs: seq<Block>, i: nat): int
    requires i < |bs|
  {
    if i == |bs| - 1 then 0 else bs[i + 1].addr
  }

  /** The fields of `heap_t`, which is where the search starts and ends. */
  predicate Anchored(mem: Memory) {
    Read(mem, HEAP_SPACE) == HEAP_SPACE && Read(mem, HEAP_SPACE + 4) == HEAD && Read(mem, HEAP_SPACE + 8) == TAIL
  }

  /** The header of block `i` is in memory, with links to its neighbours. */
  predicate LinkedAt(mem: Memory, bs: seq<Block>, i: int) {
    0 <= i < |bs| && HeaderAt(mem, bs[i], PrevOf(bs, i), NextOf(bs, i))
  }

  predicate Represents(mem: Memory, bs: seq<Block>) {
    Anchored(mem) && forall i :: 0 <= i < |bs| ==> LinkedAt(mem, bs, i)
  }

  /** What a walk along the list relies on. */
  predicate Walkable(bs: seq<Block>) {
    && |bs| >= 3 && bs[0].addr == HEAD && bs[|bs| - 1].addr == TAIL
    && forall i :: 0 <= i < |bs| - 1 ==> bs[i].addr != TAIL
  }

  lemma HeapWalkable(bs: seq<Block>)
    requires Heap(bs)
    ensures Walkable(bs)
  {
    forall i | 0 <= i < |bs| - 1
      ensures bs[i].addr != TAIL
    {
      AddrDistinct(bs, i, |bs| - 1);
    }
  }

  /** Headers do not overlap, neither each other nor `heap_t`. */
  predicate Spaced(bs: seq<Block>) {
    && (forall i, j :: 0 <= i < j < |bs| ==> bs[i].addr + HEADER <= bs[j].addr)
    && (forall i :: 0 <= i < |bs| ==> HEAD <= bs[i].addr)
  }

  lemma HeapSpaced(bs: seq<Block>)
    requires Heap(bs)
    ensures Spaced(bs)
  {
    forall i, j | 0 <= i < j < |bs|
      ensures bs[i].addr + HEADER <= bs[j].addr
    {
      Ordered(bs, i, j);
    }
    forall i | 0 <= i < |bs|
      ensures HEAD <= bs[i].addr
    {
      InHeap(bs, i);
    }
  }

  predicate InHeader(bs: seq<Block>, w: int) {
    exists i :: 0 <= i < |bs| && bs[i].addr <= w < bs[i].addr + HEADER
  }

  /** Only words in headers of `bs` differ. */
  predicate OnlyHeaders(m0: Memory, m1: Memory, bs: seq<Block>) {
    forall w :: w in m0.Keys + m1.Keys && Read(m1, w) != Read(m0, w) ==> InHeader(bs, w)
  }

  /** So no word of a live payload does. */
  lemma PayloadKept(m0: Memory, m1: Memory, bs: seq<Block>, i: nat, w: int)
    requires Sound(bs) && OnlyHeaders(m0, m1, bs)
    requires Inner(bs, i) && !bs[i].free && bs[i].Payload() <= w < bs[i].End()
    ensures Read(m1, w) == Read(m0, w)
  {
    if InHeader(bs, w) {
      var j :| 0 <= j < |bs| && bs[j].addr <= w < bs[j].addr + HEADER;
      if j != i {
        Exclusive(bs, i, j);
      }
    }
  }

  lemma HeaderWritten(mem: Memory, b: Block, prev: int, next: int)
    ensures HeaderAt(WriteHeader(mem, b, prev, next), b, prev, next)
  {
  }

  lemma HeaderBeside(mem: Memory, b: Block, prev: int, next: int, c: Block, cprev: int, cnext: int)
    requires HeaderAt(mem, c, cprev, cnext)
    requires b.addr + HEADER <= c.addr || c.addr + HEADER <= b.addr
    ensures HeaderAt(WriteHeader(mem, b, prev, next), c, cprev, cnext)
  {
  }

  lemma AnchorBeside(mem: Memory, b: Block, prev: int, next: int)
    requires Anchored(mem) && HEAD <= b.addr
    ensures Anchored(WriteHeader(mem, b, prev, next))
  {
  }

  lemma InitRepresented(m0: Memory, m1: Memory, m2: Memory, m3: Memory)
    requires Anchored(m0)
    requires m1 == WriteHeader(m0, Init()[0], 0, Init()[1].addr)
    requires m2 == WriteHeader(m1, Init()[1], HEAD, TAIL)
    requires m3 == WriteHeader(m2, Init()[2], Init()[1].addr, 0)
    ensures Represents(m3, Init())
  {
    var bs := Init();
    HeaderWritten(m0, bs[0], 0, bs[1].addr);
    HeaderBeside(m1, bs[1], HEAD, TAIL, bs[0], 0, bs[1].addr);
    HeaderBeside(m2, bs[2], bs[1].addr, 0, bs[0], 0, bs[1].addr);
    HeaderWritten(m1, bs[1], HEAD, TAIL);
    HeaderBeside(m2, bs[2], bs[1].addr, 0, bs[1], HEAD, TAIL);
    HeaderWritten(m2, bs[2], bs[1].addr, 0);
    AnchorBeside(m0, bs[0], 0, bs[1].addr);
    AnchorBeside(m1, bs[1], HEAD, TAIL);
    AnchorBeside(m2, bs[2], bs[1].addr, 0);
    assert LinkedAt(m3, bs, 0) && LinkedAt(m3, bs, 1) && LinkedAt(m3, bs, 2);
  }

  lemma PrevWritten(mem: Memory, b: Block, prev: int, next: int, q: int)
    requires HeaderAt(mem, b, prev, next)
    ensures HeaderAt(mem[b.addr + PREV := q], b, q, next)
  {
  }

  /** A word written in one header leaves the others alone. */
  lemma WordBeside(mem: Memory, a: int, v: int, b: Block, c: Block, prev: int, next: int)
    requires b.addr <= a < b.addr + HEADER && HeaderAt(mem, c, prev, next)
    requires b.addr + HEADER <= c.addr || c.addr + HEADER <= b.addr
    ensures HeaderAt(mem[a := v], c, prev, next)
  {
  }

  /** The three writes of a split. */
  function SplitWrites(mem: Memory, b: Block, size: nat, prev: int, next: int): Memory
    requires b.size >= size + HEADER
  {
    var rest := Split(b, size)[1];
    WriteHeader(WriteHeader(mem, rest, b.addr, next), Split(b, size)[0], prev, rest.addr)[next + PREV := rest.addr]
  }

  /** After a split the headers in memory are those of the new list. */
  lemma SplitRepresented(m0: Memory, bs: seq<Block>, i: nat, size: nat)
    requires Represents(m0, bs) && Inner(bs, i) && bs[i].size >= size + HEADER && Spaced(Take(bs, i, size))
    ensures Represents(SplitWrites(m0, bs[i], size, PrevOf(bs, i), NextOf(bs, i)), Take(bs, i, size))
  {
    var r := Take(bs, i, size);
    SplitAt(bs, i, size);
    var m1 := WriteHeader(m0, r[i + 1], r[i].addr, r[i + 2].addr);
    var m2 := WriteHeader(m1, r[i], PrevOf(bs, i), r[i + 1].addr);
    var m3 := m2[r[i + 2].addr + PREV := r[i + 1].addr];
    assert r[i + 2] == bs[i + 1];
    AnchorBeside(m0, r[i + 1], r[i].addr, r[i + 2].addr);
    AnchorBeside(m1, r[i], PrevOf(bs, i), r[i + 1].addr);
    forall j | 0 <= j < |r|
      ensures LinkedAt(m3, r, j)
    {
      SplitHeader(m0, bs, i, size, r, m1, m2, m3, j);
    }
  }

  lemma SplitHeader(m0: Memory, bs: seq<Block>, i: nat, size: nat, r: seq<Block>, m1: Memory, m2: Memory, m3: Memory, j: nat)
    requires Represents(m0, bs) && Inner(bs, i) && bs[i].size >= size + HEADER
    requires r == Take(bs, i, size) && Spaced(r) && |r| == |bs| + 1 && j < |r|
    requires m1 == WriteHeader(m0, r[i + 1], r[i].addr, r[i + 2].addr)
    requires m2 == WriteHeader(m1, r[i], PrevOf(bs, i), r[i + 1].addr)
    requires m3 == m2[r[i + 2].addr + PREV := r[i + 1].addr]
    ensures LinkedAt(m3, r, j)
  {
    SplitAt(bs, i, size);
    if j == i + 1 {
      HeaderWritten(m0, r[j], r[i].addr, r[i + 2].addr);
      HeaderBeside(m1, r[i], PrevOf(bs, i), r[i + 1].addr, r[j], r[i].addr, r[i + 2].addr);
      WordBeside(m2, r[i + 2].addr + PREV, r[i + 1].addr, r[i + 2], r[j], r[i].addr, r[i + 2].addr);
    } else if j == i {
      HeaderWritten(m1, r[j], PrevOf(bs, i), r[i + 1].addr);
      WordBeside(m2, r[i + 2].addr + PREV, r[i + 1].addr, r[i + 2], r[j], PrevOf(bs, i), r[i + 1].addr);
    } else {
      var h := if j < i then j else j - 1;
      assert LinkedAt(m0, bs, h) && r[j] == bs[h];
      OtherHeader(m0, r[i + 1], r[i].addr, r[i + 2], r[i], PrevOf(bs, i), bs[h], PrevOf(bs, h), NextOf(bs, h), m3);
    }
  }

  /** A header that is neither part of the split block keeps all but, behind it, its link back. */
  lemma OtherHeader(m0: Memory, rest: Block, p: int, after: Block, used: Block, prev: int, b: Block, bprev: int, bnext: int, m3: Memory)
    requires HeaderAt(m0, b, bprev, bnext)
    requires b.addr + HEADER <= rest.addr || rest.addr + HEADER <= b.addr
    requires b.addr + HEADER <= used.addr || used.addr + HEADER <= b.addr
    requires b == after || b.addr + HEADER <= after.addr || after.addr + HEADER <= b.addr
    requires m3 == WriteHeader(WriteHeader(m0, rest, p, after.addr), used, prev, rest.addr)[after.addr + PREV := rest.addr]
    ensures HeaderAt(m3, b, if b == after then rest.addr else bprev, bnext)
  {
    var m1 := WriteHeader(m0, rest, p, after.addr);
    var m2 := WriteHeader(m1, used, prev, rest.addr);
    HeaderBeside(m0, rest, p, after.addr, b, bprev, bnext);
    HeaderBeside(m1, used, prev, rest.addr, b, bprev, bnext);
    PrevBeside(m2, after, rest.addr, b, bprev, bnext);
  }

  /** Changing the free flag of one block. */
  lemma FlagRepresented(m0: Memory, bs: seq<Block>, i: nat, free: bool)
    requires Represents(m0, bs) && Spaced(bs) && i < |bs|
    ensures Represents(m0[bs[i].addr + FREE := Flag(free)], bs[i := bs[i].(free := free)])
    ensures Spaced(bs[i := bs[i].(free := free)])
  {
    var r := bs[i := bs[i].(free := free)];
    var m1 := m0[bs[i].addr + FREE := Flag(free)];
    forall j | 0 <= j < |r|
      ensures LinkedAt(m1, r, j)
    {
      assert LinkedAt(m0, bs, j);
      if j != i {
        WordBeside(m0, bs[i].addr + FREE, Flag(free), bs[i], bs[j], PrevOf(bs, j), NextOf(bs, j));
      }
    }
  }

  /** A block grows into the free block behind it: its own fields, then the link back to it. */
  function GrowWrites(mem: Memory, p: int, size: int, next: int): Memory {
    mem[p + FREE := 1][p + SIZE := size][p + NEXT := next]
  }

  function JoinWrites(mem: Memory, p: int, size: int, next: int): Memory {
    GrowWrites(mem, p, size, next)[next + PREV := p]
  }

  lemma Grown(mem: Memory, b: Block, prev: int, next: int, size: nat, last: int)
    requires HeaderAt(mem, b, prev, next)
    ensures HeaderAt(GrowWrites(mem, b.addr, size, last), Block(b.addr, size, true), prev, last)
  {
  }

  lemma GrownBeside(mem: Memory, b: Block, size: nat, last: int, c: Block, prev: int, next: int)
    requires HeaderAt(mem, c, prev, next)
    requires b.addr + HEADER <= c.addr || c.addr + HEADER <= b.addr
    ensures HeaderAt(GrowWrites(mem, b.addr, size, last), c, prev, next)
  {
  }

  lemma JoinAt(bs: seq<Block>, i: nat)
    requires i + 1 < |bs|
    ensures var r := Join(bs, i);
      && |r| == |bs| - 1
      && (forall j :: 0 <= j < |r| && j != i ==> r[j] == if j < i then bs[j] else bs[j + 1])
      && r[i] == Block(bs[i].addr, bs[i].size + HEADER + bs[i + 1].size, true)
  {
  }

  lemma JoinHeader(m0: Memory, bs: seq<Block>, i: nat, r: seq<Block>, m3: Memory, j: nat)
    requires Represents(m0, bs) && Spaced(bs) && i + 2 < |bs| && r == Join(bs, i) && j < |r|
    requires m3 == GrowWrites(m0, bs[i].addr, r[i].size, bs[i + 2].addr)
    ensures LinkedAt(m3[bs[i + 2].addr + PREV := bs[i].addr], r, j)
  {
    JoinAt(bs, i);
    var h := if j <= i then j else j + 1;
    assert LinkedAt(m0, bs, h);
    if j == i {
      Grown(m0, bs[i], PrevOf(bs, i), NextOf(bs, i), r[i].size, bs[i + 2].addr);
      WordBeside(m3, bs[i + 2].addr + PREV, bs[i].addr, bs[i + 2], r[i], PrevOf(bs, i), bs[i + 2].addr);
    } else {
      GrownBeside(m0, bs[i], r[i].size, bs[i + 2].addr, bs[h], PrevOf(bs, h), NextOf(bs, h));
      PrevBeside(m3, bs[i + 2], bs[i].addr, bs[h], PrevOf(bs, h), NextOf(bs, h));
    }
  }

  /** The link back of `after` is the only one that changes. */
  lemma PrevBeside(m: Memory, after: Block, p: int, b: Block, bprev: int, bnext: int)
    requires HeaderAt(m, b, bprev, bnext)
    requires b == after || b.addr + HEADER <= after.addr || after.addr + HEADER <= b.addr
    ensures HeaderAt(m[after.addr + PREV := p], b, if b == after then p else bprev, bnext)
  {
    if b == after {
      PrevWritten(m, b, bprev, bnext, p);
    } else {
      WordBeside(m, after.addr + PREV, p, after, b, bprev, bnext);
    }
  }

  lemma JoinOnlyHeaders(m0: Memory, bs: seq<Block>, i: nat, size: int)
    requires i + 2 < |bs|
    ensures OnlyHeaders(m0, JoinWrites(m0, bs[i].addr, size, bs[i + 2].addr), bs)
  {
    var m1 := JoinWrites(m0, bs[i].addr, size, bs[i + 2].addr);
    forall w | w in m0.Keys + m1.Keys && Read(m1, w) != Read(m0, w)
      ensures InHeader(bs, w)
    {
      assert bs[i].addr <= w < bs[i].addr + HEADER || w == bs[i + 2].addr;
    }
  }

  lemma JoinRepresented(m0: Memory, bs: seq<Block>, i: nat, m1: Memory)
    requires Represents(m0, bs) && Spaced(bs) && i + 2 < |bs|
    requires m1 == JoinWrites(m0, bs[i].addr, bs[i].size + HEADER + bs[i + 1].size, bs[i + 2].addr)
    ensures Represents(m1, Join(bs, i)) && Spaced(Join(bs, i))
  {
    var r := Join(bs, i);
    JoinAt(bs, i);
    forall j | 0 <= j < |r|
      ensures LinkedAt(m1, r, j)
    {
      JoinHeader(m0, bs, i, r, GrowWrites(m0, bs[i].addr, r[i].size, bs[i + 2].addr), j);
    }
  }

  lemma BlockBounds(bs: seq<Block>, i: nat)
    requires HeapBlocks.Heap(bs) && i < |bs|
    ensures HEAD <= bs[i].addr <= TAIL && bs[i].size <= HEAP_SIZE
  {
    InHeap(bs, i);
    if i < |bs| - 2 {
      Ordered(bs, i, |bs| - 1);
    }
  }

  /** The memory after `malloc` has used block `i`. */
  function TakeWrites(mem: Memory, bs: seq<Block>, i: nat, size: nat): Memory
    requires i < |bs|
  {
    if bs[i].size >= size + HEADER then SplitWrites(mem, bs[i], size, PrevOf(bs, i), NextOf(bs, i))
    else mem[bs[i].addr + FREE := 0]
  }

  lemma SplitOnlyHeaders(m0: Memory, bs: seq<Block>, i: nat, size: nat, r: seq<Block>)
    requires Inner(bs, i) && bs[i].size >= size + HEADER && r == Take(bs, i, size)
    ensures OnlyHeaders(m0, SplitWrites(m0, bs[i], size, PrevOf(bs, i), NextOf(bs, i)), r)
  {
    SplitAt(bs, i, size);
    var m1 := SplitWrites(m0, bs[i], size, PrevOf(bs, i), NextOf(bs, i));
    forall w | w in m0.Keys + m1.Keys && Read(m1, w) != Read(m0, w)
      ensures InHeader(r, w)
    {
      assert r[i].addr <= w < r[i].addr + HEADER || r[i + 1].addr <= w < r[i + 1].addr + HEADER || w == r[i + 2].addr;
    }
  }

  lemma TakeRepresented(m0: Memory, bs: seq<Block>, i: nat, size: nat, m1: Memory)
    requires Represents(m0, bs) && HeapBlocks.Heap(bs) && Inner(bs, i) && HeapBlocks.Heap(Take(bs, i, size))
    requires m1 == TakeWrites(m0, bs, i, size)
    ensures Represents(m1, Take(bs, i, size)) && OnlyHeaders(m0, m1, Take(bs, i, size))
  {
    var r := Take(bs, i, size);
    if bs[i].size >= size + HEADER {
      HeapSpaced(r);
      SplitRepresented(m0, bs, i, size);
      SplitOnlyHeaders(m0, bs, i, size, r);
    } else {
      HeapSpaced(bs);
      FlagRepresented(m0, bs, i, false);
      FlagOnly(m0, r, i, 0);
    }
  }

  lemma PayloadAligned(bs: seq<Block>, i: nat)
    requires HeapBlocks.Heap(bs) && i < |bs| - 1
    ensures bs[i].Payload() % 4 == 0
  {
    assert BlockOk(bs, i);
    FourModEight(bs[i].addr);
  }

  lemma FourModEight(a: nat)
    requires a % 8 == 4
    ensures (a + HEADER) % 4 == 0
  {
  }

  lemma SizesAround(bs: seq<Block>, k: nat)
    requires HeapBlocks.Heap(bs) && Inner(bs, k)
    ensures bs[k - 1].size <= HEAP_SIZE && bs[k].size <= HEAP_SIZE && bs[k + 1].size <= HEAP_SIZE
  {
    BlockBounds(bs, k - 1);
    BlockBounds(bs, k);
    BlockBounds(bs, k + 1);
  }

  lemma FlagOnly(m0: Memory, bs: seq<Block>, k: nat, v: int)
    requires k < |bs|
    ensures OnlyHeaders(m0, m0[bs[k].addr + FREE := v], bs)
  {
  }

  function Addresses(bs: seq<Block>): set<int> {
    set i | 0 <= i < |bs| :: bs[i].addr
  }

  lemma JoinAddresses(bs: seq<Block>, i: nat)
    requires i + 1 < |bs|
    ensures Addresses(Join(bs, i)) <= Addresses(bs)
  {
    var r := Join(bs, i);
    JoinAt(bs, i);
    forall j | 0 <= j < |r|
      ensures r[j].addr in Addresses(bs)
    {
      assert r[j].addr == bs[if j <= i then j else j + 1].addr;
    }
  }

  lemma FlagAddresses(bs: seq<Block>, k: nat, free: bool)
    requires k < |bs|
    ensures Addresses(bs[k := bs[k].(free := free)]) <= Addresses(bs)
  {
    var r := bs[k := bs[k].(free := free)];
    forall j | 0 <= j < |r|
      ensures r[j].addr in Addresses(bs)
    {
      assert r[j].addr == bs[j].addr;
    }
  }

  /** Writes to headers of a list whose headers are all headers of `bs` add up. */
  lemma OnlyHeadersChain(m0: Memory, m1: Memory, m2: Memory, bs: seq<Block>, b1: seq<Block>)
    requires OnlyHeaders(m0, m1, bs) && OnlyHeaders(m1, m2, b1) && Addresses(b1) <= Addresses(bs)
    ensures OnlyHeaders(m0, m2, bs)
  {
    forall w | w in m0.Keys + m2.Keys && Read(m2, w) != Read(m0, w)
      ensures InHeader(bs, w)
    {
      if Read(m1, w) == Read(m0, w) {
        assert InHeader(b1, w);
        var i :| 0 <= i < |b1| && b1[i].addr <= w < b1[i].addr + HEADER;
        assert b1[i].addr in Addresses(b1);
        var j :| 0 <= j < |bs| && bs[j].addr == b1[i].addr;
      }
    }
  }

  // ---------------------------------------------------------------- the search

  /** The block the search of `find_worst_fit` starts from, and the one it looks at after `k` turns. */
  function First(mem: Memory): int {
    Read(mem, Read(mem, HEAP_SPACE + 4) + NEXT)
  }

  function Current(mem: Memory, k: nat): int {
    Read(mem, (if k == 0 then First(mem) else Current(mem, k - 1)) + NEXT)
  }

  /** The largest block so far. */
  function LargestAfter(mem: Memory, k: nat): int {
    if k == 0 then First(mem)
    else
      var l, c := LargestAfter(mem, k - 1), Current(mem, k - 1);
      if Read(mem, c + FREE) != 0 && Read(mem, c + SIZE) >= Read(mem, l + SIZE) then c else l
  }

  /** The search comes to the tail after `k` turns. */
  predicate EndsAfter(mem: Memory, k: nat) {
    && Current(mem, k) == Read(mem, HEAP_SPACE + 8)
    && forall j: nat :: j < k ==> Current(mem, j) != Read(mem, HEAP_SPACE + 8)
  }

  function SearchResult(mem: Memory, k: nat, minSize: nat): int {
    var l := LargestAfter(mem, k);
    if Read(mem, l + FREE) == 0 || Read(mem, l + SIZE) < minSize then 0 else l
  }

  lemma {:induction false} SearchAt(mem: Memory, bs: seq<Block>, k: nat)
    requires Represents(mem, bs) && |bs| >= 3 && bs[0].addr == HEAD && k + 2 < |bs|
    ensures Current(mem, k) == bs[k + 2].addr && LargestAfter(mem, k) == bs[Largest(bs, k + 2)].addr
  {
    assert LinkedAt(mem, bs, 0) && LinkedAt(mem, bs, 1);
    if k > 0 {
      SearchAt(mem, bs, k - 1);
      assert LinkedAt(mem, bs, k + 1) && LinkedAt(mem, bs, Largest(bs, k + 1));
    }
  }

  /** In the headers of a list the search ends, with the block `WorstFit` names, or 0. */
  lemma SearchFinds(mem: Memory, bs: seq<Block>, minSize: nat)
    requires Represents(mem, bs) && Walkable(bs)
    ensures EndsAfter(mem, |bs| - 3)
    ensures SearchResult(mem, |bs| - 3, minSize) ==
      match WorstFit(bs, minSize) case None => 0 case Some(i) => bs[i].addr
  {
    var n := |bs| - 3;
    SearchAt(mem, bs, n);
    forall j: nat | j < n
      ensures Current(mem, j) != TAIL
    {
      SearchAt(mem, bs, j);
    }
    assert LinkedAt(mem, bs, Largest(bs, n + 2));
  }

  // ---------------------------------------------------------------- a rest that is too small

  /**
    A request that leaves 12 or 4 bytes of the last block writes the rest's header over the
    tail's: the rest is then its own successor, or claims its own address as its size.
   */
  lemma SmallRestCorrupts(mem: Memory, b: Block, size: nat, prev: int)
    requires b.End() == TAIL + HEADER && size + HEADER <= b.size < size + 2 * HEADER
    ensures var m, rest := SplitWrites(mem, b, size, prev, TAIL), Split(b, size)[1];
      && (rest.size == 12 ==> Read(m, rest.addr + NEXT) == rest.addr)
      && (rest.size == 4 ==> Read(m, rest.addr + SIZE) == rest.addr)
  {
  }

  /** What else is in memory then: up to the block used the headers are those of the list. */
  predicate SmallRest(m: Memory, bs: seq<Block>, size: nat, rest: int) {
    var i := |bs| - 2;
    && i >= 1 && Anchored(m) && rest == bs[i].Payload() + size
    && (forall h :: 0 <= h < i ==> HeaderAt(m, bs[h], PrevOf(bs, h), NextOf(bs, h)))
    && HeaderAt(m, Block(bs[i].addr, size, false), PrevOf(bs, i), rest)
  }

  lemma SmallRestLeft(m0: Memory, bs: seq<Block>, size: nat)
    requires Sound(bs) && Represents(m0, bs)
    requires var b := bs[|bs| - 2]; b.size == size + HEADER + 4 || b.size == size + HEADER + 12
    ensures SmallRest(TakeWrites(m0, bs, |bs| - 2, size), bs, size, bs[|bs| - 2].Payload() + size)
  {
    var i := |bs| - 2;
    var rest, prev := Split(bs[i], size)[1], PrevOf(bs, i);
    var m1 := WriteHeader(m0, rest, bs[i].addr, TAIL);
    var m2 := WriteHeader(m1, Split(bs[i], size)[0], prev, rest.addr);
    InHeap(bs, i);
    AnchorBeside(m0, rest, bs[i].addr, TAIL);
    AnchorBeside(m1, Split(bs[i], size)[0], prev, rest.addr);
    HeaderWritten(m1, Split(bs[i], size)[0], prev, rest.addr);
    WordBeside(m2, TAIL + PREV, rest.addr, rest, Split(bs[i], size)[0], prev, rest.addr);
    forall h | 0 <= h < i
      ensures HeaderAt(m2[TAIL + PREV := rest.addr], bs[h], PrevOf(bs, h), NextOf(bs, h))
    {
      assert LinkedAt(m0, bs, h);
      Ordered(bs, h, i);
      HeaderBeside(m0, rest, bs[i].addr, TAIL, bs[h], PrevOf(bs, h), NextOf(bs, h));
      HeaderBeside(m1, Split(bs[i], size)[0], prev, rest.addr, bs[h], PrevOf(bs, h), NextOf(bs, h));
      WordBeside(m2, TAIL + PREV, rest.addr, rest, bs[h], PrevOf(bs, h), NextOf(bs, h));
    }
  }

  /** The links of the list, with the rest behind its last block. */
  predicate LeadsTo(m: Memory, bs: seq<Block>, rest: int, h: nat)
    requires h <= |bs| - 2
  {
    Read(m, bs[h].addr + NEXT) == if h < |bs| - 2 then bs[h + 1].addr else rest
  }

  predicate Path(m: Memory, bs: seq<Block>, rest: int) {
    && |bs| >= 3 && Read(m, HEAP_SPACE + 4) == bs[0].addr
    && forall h :: 0 <= h <= |bs| - 2 ==> LeadsTo(m, bs, rest, h)
  }

  lemma SmallRestPath(m: Memory, bs: seq<Block>, size: nat, rest: int)
    requires Sound(bs) && SmallRest(m, bs, size, rest)
    ensures Path(m, bs, rest)
  {
    forall h | 0 <= h <= |bs| - 2
      ensures LeadsTo(m, bs, rest, h)
    {
      assert h < |bs| - 2 ==> HeaderAt(m, bs[h], PrevOf(bs, h), NextOf(bs, h));
    }
  }

  /** The search goes through the list up to the block used, and then comes to the rest. */
  lemma {:induction false} PathWalk(m: Memory, bs: seq<Block>, rest: int, k: nat)
    requires Path(m, bs, rest) && k + 2 < |bs|
    ensures Current(m, k) == if k + 2 == |bs| - 1 then rest else bs[k + 2].addr
  {
    assert LeadsTo(m, bs, rest, 0) && LeadsTo(m, bs, rest, k + 1);
    if k > 0 {
      PathWalk(m, bs, rest, k - 1);
    }
  }

  /** Before that the largest block so far is one of the list. */
  lemma {:induction false} PathLargest(m: Memory, bs: seq<Block>, rest: int, k: nat) returns (h: nat)
    requires Path(m, bs, rest) && k + 2 < |bs|
    ensures 1 <= h < |bs| - 1 && LargestAfter(m, k) == bs[h].addr
  {
    if k == 0 {
      h := 1;
      assert LeadsTo(m, bs, rest, 0);
    } else {
      h := PathLargest(m, bs, rest, k - 1);
      PathWalk(m, bs, rest, k - 1);
      if LargestAfter(m, k) != LargestAfter(m, k - 1) {
        h := k + 1;
      }
    }
  }

  /** With 12 bytes left the search never ends. */
  lemma RestOf12(m0: Memory, bs: seq<Block>, size: nat, k: nat)
    requires Sound(bs) && Represents(m0, bs) && bs[|bs| - 2].size == size + HEADER + 12
    ensures !EndsAfter(TakeWrites(m0, bs, |bs| - 2, size), k)
  {
    var m, n := TakeWrites(m0, bs, |bs| - 2, size), |bs| - 3;
    var rest := bs[|bs| - 2].Payload() + size;
    SmallRestLeft(m0, bs, size);
    SmallRestCorrupts(m0, bs[|bs| - 2], size, PrevOf(bs, |bs| - 2));
    SmallRestPath(m, bs, size, rest);
    if k < n {
      PathWalk(m, bs, rest, k);
      HeapWalkable(bs);
    } else {
      PathWalk(m, bs, rest, n);
      StaysAt(m, n, rest, k);
    }
  }

  lemma {:induction false} StaysAt(m: Memory, n: nat, rest: int, k: nat)
    requires n <= k && Current(m, n) == rest && Read(m, rest + NEXT) == rest
    ensures Current(m, k) == rest
  {
    if n < k {
      StaysAt(m, n, rest, k - 1);
    }
  }

  /** With 4 bytes left it ends with the rest, for every request up to the rest's own address. */
  lemma RestOf4(m0: Memory, bs: seq<Block>, size: nat, minSize: nat, m: Memory)
    requires Sound(bs) && Represents(m0, bs) && bs[|bs| - 2].size == size + HEADER + 4
    requires m == TakeWrites(m0, bs, |bs| - 2, size)
    ensures EndsAfter(m, |bs| - 2)
    ensures SearchResult(m, |bs| - 2, minSize) == if minSize <= TAIL - 4 then TAIL - 4 else 0
  {
    SmallRestLeft(m0, bs, size);
    RestOf4Left(m0, bs, size, m);
    RestOf4Found(m, bs, size, minSize);
  }

  lemma RestOf4Left(m0: Memory, bs: seq<Block>, size: nat, m: Memory)
    requires Sound(bs) && bs[|bs| - 2].size == size + HEADER + 4 && m == TakeWrites(m0, bs, |bs| - 2, size)
    ensures ClaimsAll(m, TAIL - 4) && size <= HEAP_SIZE && bs[|bs| - 2].Payload() + size == TAIL - 4
  {
    BlockBounds(bs, |bs| - 2);
    RestOf4Header(m0, bs[|bs| - 2], size, PrevOf(bs, |bs| - 2));
  }

  /** The header of the rest, as its own link back and the tail's leave it. */
  predicate ClaimsAll(m: Memory, rest: int) {
    rest == TAIL - 4 && Read(m, rest + FREE) == 1 && Read(m, rest + SIZE) == rest && Read(m, rest + NEXT) == TAIL
  }

  lemma RestOf4Header(m0: Memory, b: Block, size: nat, prev: int)
    requires b.End() == TAIL + HEADER && b.size == size + HEADER + 4
    ensures ClaimsAll(SplitWrites(m0, b, size, prev, TAIL), TAIL - 4)
  {
  }

  lemma RestOf4Found(m: Memory, bs: seq<Block>, size: nat, minSize: nat)
    requires Sound(bs) && SmallRest(m, bs, size, TAIL - 4) && ClaimsAll(m, TAIL - 4) && size <= HEAP_SIZE
    ensures EndsAfter(m, |bs| - 2)
    ensures SearchResult(m, |bs| - 2, minSize) == if minSize <= TAIL - 4 then TAIL - 4 else 0
  {
    SmallRestPath(m, bs, size, TAIL - 4);
    HeapWalkable(bs);
    forall h | 1 <= h < |bs| - 1
      ensures SizeAt(m, bs, h) <= HEAP_SIZE
    {
      BlockBounds(bs, h);
      SmallRestSize(m, bs, size, TAIL - 4, h);
    }
    RestLargest(m, bs, TAIL - 4);
    PathAvoids(m, bs, TAIL - 4);
  }

  function SizeAt(m: Memory, bs: seq<Block>, h: nat): int
    requires h < |bs|
  {
    Read(m, bs[h].addr + SIZE)
  }

  /** No block of the list is as large as the rest claims to be. */
  lemma RestLargest(m: Memory, bs: seq<Block>, rest: int)
    requires Path(m, bs, rest) && ClaimsAll(m, rest)
    requires forall h :: 1 <= h < |bs| - 1 ==> SizeAt(m, bs, h) <= HEAP_SIZE
    ensures LargestAfter(m, |bs| - 2) == rest && Current(m, |bs| - 2) == TAIL
  {
    var n := |bs| - 2;
    PathWalk(m, bs, rest, n - 1);
    var h := PathLargest(m, bs, rest, n - 1);
    assert SizeAt(m, bs, h) <= HEAP_SIZE;
  }

  lemma PathAvoids(m: Memory, bs: seq<Block>, rest: int)
    requires Walkable(bs) && Path(m, bs, rest) && rest != TAIL
    ensures forall j: nat :: j < |bs| - 2 ==> Current(m, j) != TAIL
  {
    forall j: nat | j < |bs| - 2
      ensures Current(m, j) != TAIL
    {
      PathWalk(m, bs, rest, j);
    }
  }

  lemma SmallRestSize(m: Memory, bs: seq<Block>, size: nat, rest: int, h: nat)
    requires SmallRest(m, bs, size, rest) && 1 <= h < |bs| - 1 && size <= HEAP_SIZE && bs[h].size <= HEAP_SIZE
    ensures SizeAt(m, bs, h) <= HEAP_SIZE
  {
    if h < |bs| - 2 {
      assert HeaderAt(m, bs[h], PrevOf(bs, h), NextOf(bs, h));
    }
  }

  /** The very first request can leave either rest. */
  lemma FirstRequestCanCorrupt(r: nat)
    requires r == 4 || r == 12
    ensures var request := TAIL - HEAD - HEADER - HEADER - r;
      !Fits(Init(), request) && WorstFit(Init(), AlignSize(request)) == Some(1)
      && Init()[1].size == AlignSize(request) + HEADER + r
  {
    assert Largest(Init(), 2) == 1;
  }

  /** What byte `k` of a little-endian word counts. */
  function Weight(k: nat): (p: nat)
    requires k < 4
    ensures p > 0
  {
    if k == 0 then 1 else if k == 1 then 0x100 else if k == 2 then 0x1_0000 else 0x100_0000
  }

  /** Byte `k` of a word, and the word with that byte cleared. */
  function ByteOf(w: int, k: nat): int
    requires k < 4
  {
    w / Weight(k) % 0x100
  }

  function ClearByte(w: int, k: nat): int
    requires k < 4
  {
    w - ByteOf(w, k) * Weight(k)
  }

  lemma ClearByteClears(w: int, k: nat, j: nat)
    requires k < 4 && j < 4
    ensures ByteOf(ClearByte(w, k), j) == if j == k then 0 else ByteOf(w, j)
  {
    var b0, b1, b2, h := w % 0x100, w / 0x100 % 0x100, w / 0x1_0000 % 0x100, w / 0x100_0000;
    Compose(b0, b1, b2, h, w);
    ClearWord(b0, b1, b2, h, k);
    BytesOf(b0, b1, b2, h);
    ByteIndex(ClearByte(w, k), j);
    ByteIndex(w, j);
  }

  /** Byte `i` of a word and of the word with byte `k` cleared. */
  predicate Clears(v: int, b0: int, b1: int, b2: int, b3: int, k: nat) {
    && ByteOf(v, 0) == (if k == 0 then 0 else b0) && ByteOf(v, 1) == (if k == 1 then 0 else b1)
    && ByteOf(v, 2) == (if k == 2 then 0 else b2) && ByteOf(v, 3) == (if k == 3 then 0 else b3)
  }

  lemma ClearWord(b0: int, b1: int, b2: int, h: int, k: nat)
    requires 0 <= b0 < 0x100 && 0 <= b1 < 0x100 && 0 <= b2 < 0x100 && k < 4
    ensures Clears(ClearByte(Word(b0, b1, b2, h), k), b0, b1, b2, h % 0x100, k)
  {
    if k == 0 {
      Clear0(b0, b1, b2, h);
    } else if k == 1 {
      Clear1(b0, b1, b2, h);
    } else if k == 2 {
      Clear2(b0, b1, b2, h);
    } else {
      Clear3(b0, b1, b2, h);
    }
  }

  lemma Clear0(b0: int, b1: int, b2: int, h: int)
    requires 0 <= b0 < 0x100 && 0 <= b1 < 0x100 && 0 <= b2 < 0x100
    ensures Clears(ClearByte(Word(b0, b1, b2, h), 0), b0, b1, b2, h % 0x100, 0)
  {
    BytesOf(b0, b1, b2, h);
    assert ClearByte(Word(b0, b1, b2, h), 0) == Word(0, b1, b2, h);
    BytesOf(0, b1, b2, h);
  }

  lemma Clear1(b0: int, b1: int, b2: int, h: int)
    requires 0 <= b0 < 0x100 && 0 <= b1 < 0x100 && 0 <= b2 < 0x100
    ensures Clears(ClearByte(Word(b0, b1, b2, h), 1), b0, b1, b2, h % 0x100, 1)
  {
    BytesOf(b0, b1, b2, h);
    assert ClearByte(Word(b0, b1, b2, h), 1) == Word(b0, 0, b2, h);
    BytesOf(b0, 0, b2, h);
  }

  lemma Clear2(b0: int, b1: int, b2: int, h: int)
    requires 0 <= b0 < 0x100 && 0 <= b1 < 0x100 && 0 <= b2 < 0x100
    ensures Clears(ClearByte(Word(b0, b1, b2, h), 2), b0, b1, b2, h % 0x100, 2)
  {
    BytesOf(b0, b1, b2, h);
    assert ClearByte(Word(b0, b1, b2, h), 2) == Word(b0, b1, 0, h);
    BytesOf(b0, b1, 0, h);
  }

  lemma LowByteOff(h: int)
    ensures h / 0x100 * 0x100 == h - h % 0x100 && h / 0x100 * 0x100 % 0x100 == 0
  {
  }

  lemma Clear3(b0: int, b1: int, b2: int, h: int)
    requires 0 <= b0 < 0x100 && 0 <= b1 < 0x100 && 0 <= b2 < 0x100
    ensures Clears(ClearByte(Word(b0, b1, b2, h), 3), b0, b1, b2, h % 0x100, 3)
  {
    var g := h / 0x100 * 0x100;
    LowByteOff(h);
    BytesOf(b0, b1, b2, h);
    assert ClearByte(Word(b0, b1, b2, h), 3) == Word(b0, b1, b2, g);
    BytesOf(b0, b1, b2, g);
  }

  lemma ByteIndex(w: int, j: nat)
    requires j < 4
    ensures ByteOf(w, j) == ByteOf(w, if j == 0 then 0 else if j == 1 then 1 else if j == 2 then 2 else 3)
  {
  }

  function Word(b0: int, b1: int, b2: int, h: int): int {
    b0 + 0x100 * b1 + 0x1_0000 * b2 + 0x100_0000 * h
  }

  lemma Compose(b0: int, b1: int, b2: int, h: int, w: int)
    requires b0 == w % 0x100 && b1 == w / 0x100 % 0x100 && b2 == w / 0x1_0000 % 0x100 && h == w / 0x100_0000
    ensures w == Word(b0, b1, b2, h)
  {
    var x := w / 0x100;
    var y := x / 0x100;
    assert w / 0x1_0000 == y && w / 0x100_0000 == y / 0x100;
  }

  lemma BytesOf(b0: int, b1: int, b2: int, h: int)
    requires 0 <= b0 < 0x100 && 0 <= b1 < 0x100 && 0 <= b2 < 0x100
    ensures var w := Word(b0, b1, b2, h);
      ByteOf(w, 0) == b0 && ByteOf(w, 1) == b1 && ByteOf(w, 2) == b2 && ByteOf(w, 3) == h % 0x100
  {
    var w := Word(b0, b1, b2, h);
    assert w / 0x100 == b1 + 0x100 * b2 + 0x1_0000 * h;
    assert w / 0x1_0000 == b2 + 0x100 * h;
    assert w / 0x100_0000 == h;
  }

  /** The byte at address `a`. */
  function ReadByte(mem: Memory, a: nat): int {
    ByteOf(Read(mem, a - a % 4), a % 4)
  }

  function ZeroByte(mem: Memory, a: nat): Memory {
    mem[a - a % 4 := ClearByte(Read(mem, a - a % 4), a % 4)]
  }

  lemma ZeroByteZeroes(mem: Memory, a: nat, b: nat)
    ensures ReadByte(ZeroByte(mem, a), b) == if a == b then 0 else ReadByte(mem, b)
  {
    if a - a % 4 == b - b % 4 {
      ClearByteClears(Read(mem, a - a % 4), a % 4, b % 4);
    }
  }

  /** Only words from `lo` up to `hi` differ. */
  predicate OnlyBetween(m0: Memory, m1: Memory, lo: int, hi: int) {
    forall w :: w in m0.Keys + m1.Keys && Read(m1, w) != Read(m0, w) ==> lo <= w < hi
  }

  /** The owner of a payload can write it without touching the list. */
  lemma PayloadWritesKeep(m0: Memory, m1: Memory, bs: seq<Block>, i: nat)
    requires Sound(bs) && Represents(m0, bs) && Inner(bs, i) && !bs[i].free
    requires OnlyBetween(m0, m1, bs[i].Payload(), bs[i].End())
    ensures Represents(m1, bs)
  {
    InHeap(bs, i);
    forall j | 0 <= j < |bs|
      ensures LinkedAt(m1, bs, j)
    {
      assert LinkedAt(m0, bs, j);
      if j != i {
        Exclusive(bs, i, j);
      }
      SameHeader(m0, m1, bs[j], bs[i].Payload(), bs[i].End());
    }
  }

  lemma SameHeader(m0: Memory, m1: Memory, b: Block, lo: int, hi: int)
    requires OnlyBetween(m0, m1, lo, hi) && (b.addr + HEADER <= lo || hi <= b.addr)
    ensures Read(m1, b.addr + PREV) == Read(m0, b.addr + PREV) && Read(m1, b.addr + SIZE) == Read(m0, b.addr + SIZE)
    ensures Read(m1, b.addr + FREE) == Read(m0, b.addr + FREE) && Read(m1, b.addr + NEXT) == Read(m0, b.addr + NEXT)
  {
    assert forall w :: w !in m0.Keys + m1.Keys ==> Read(m1, w) == Read(m0, w);
  }

  /** `n` bytes from `ptr` on are zero. */
  predicate Zeroed(m: Memory, ptr: nat, n: nat) {
    forall a: nat :: ptr <= a < ptr + n ==> ReadByte(m, a) == 0
  }

  lemma ZeroedStep(m: Memory, ptr: nat, n: nat)
    requires Zeroed(m, ptr, n)
    ensures Zeroed(ZeroByte(m, ptr + n), ptr, n + 1)
  {
    var r, end := ZeroByte(m, ptr + n), ptr + n + 1;
    forall a: nat | ptr <= a < end
      ensures ReadByte(r, a) == 0
    {
      ZeroByteZeroes(m, ptr + n, a);
    }
  }

  lemma ZeroedBetween(m0: Memory, m1: Memory, ptr: nat, n: nat, total: nat)
    requires OnlyBetween(m0, m1, ptr, ptr + total) && n < total && ptr % 4 == 0
    ensures OnlyBetween(m0, ZeroByte(m1, ptr + n), ptr, ptr + total)
  {
  }

  class Allocator {
    var mem: Memory
    ghost var blocks: seq<Block>

    ghost predicate Valid()
      reads this
    {
      Sound(blocks) && Represents(mem, blocks)
    }

    constructor InitHeap(memory: Memory)
      ensures Valid() && blocks == Init()
    {
      var head := HEAP_SPACE + HEAP_T;
      var tail := HEAP_SPACE + HEAP_SIZE - HEADER;
      var free := head + HEADER;
      var bs := Init();
      var m0 := memory[HEAP_SPACE := HEAP_SPACE][HEAP_SPACE + 4 := head][HEAP_SPACE + 8 := tail];
      var m1 := WriteHeader(m0, Block(head, 0, false), 0, free);
      var m2 := WriteHeader(m1, Block(free, tail - head - HEADER, true), head, tail);
      var m3 := WriteHeader(m2, Block(tail, 0, false), free, 0);
      mem := m3;
      blocks := bs;
      InitIsSound();
      InitRepresented(m0, m1, m2, m3);
    }

    /** The address of the block to use, or 0, in any memory in which the search ends. */
    method FindWorstFit(minSize: nat, ghost turns: nat) returns (p: int)
      requires EndsAfter(mem, turns)
      ensures p == SearchResult(mem, turns, minSize)
    {
      var tail := Read(mem, HEAP_SPACE + 8);
      var largest := Read(mem, Read(mem, HEAP_SPACE + 4) + NEXT);
      var current := Read(mem, largest + NEXT);
      ghost var k: nat := 0;
      while current != tail
        invariant k <= turns && current == Current(mem, k) && largest == LargestAfter(mem, k)
        decreases turns - k
      {
        if Read(mem, current + FREE) != 0 && Read(mem, current + SIZE) >= Read(mem, largest + SIZE) {
          largest := current;
        }
        current, k := Read(mem, current + NEXT), k + 1;
      }
      if Read(mem, largest + FREE) == 0 || Read(mem, largest + SIZE) < minSize {
        return 0;
      }
      return largest;
    }

    /** Marks the block found as allocated, splitting it if the rest can hold a header. */
    method Use(p: int, size: nat, ghost i: nat)
      requires Represents(mem, blocks) && 0 < i < |blocks| - 1 && p == blocks[i].addr
      requires blocks[i].size >= size && size + HEADER < U32
      modifies this`mem
      ensures mem == TakeWrites(old(mem), blocks, i, size)
    {
      assert LinkedAt(mem, blocks, i);
      if Read(mem, p + SIZE) >= (size + HEADER) % U32 {
        var rest := p + HEADER + size;
        var next, prev := Read(mem, p + NEXT), Read(mem, p + PREV);
        var restSize := Read(mem, p + SIZE) - size - HEADER;
        mem := WriteHeader(mem, Block(rest, restSize, true), p, next);
        mem := WriteHeader(mem, Block(p, size, false), prev, rest);
        mem := mem[next + PREV := rest];
      } else {
        mem := mem[p + FREE := 0];
      }
    }

    /**
      When the request fits, exactly what `DoMalloc` does to the blocks, writing nothing but
      headers of the blocks there are afterwards.
     */
    method Malloc(request: nat) returns (ptr: nat)
      requires Valid() && request < U32
      modifies this
      ensures ptr == DoMalloc(old(blocks), request).ptr
      ensures ptr == 0 ==> mem == old(mem) && blocks == old(blocks)
      ensures var i := WorstFit(old(blocks), AlignSize(request));
        i.Some? ==> mem == TakeWrites(old(mem), old(blocks), i.value, AlignSize(request))
      ensures Fits(old(blocks), request) ==>
        && Valid() && blocks == DoMalloc(old(blocks), request).blocks
        && OnlyHeaders(old(mem), mem, blocks)
    {
      var size := AlignSize(request);
      HeapWalkable(blocks);
      SearchFinds(mem, blocks, size);
      var p := FindWorstFit(size, |blocks| - 3);
      ghost var found := WorstFit(blocks, size);
      if found.Some? {
        BlockBounds(blocks, found.value);
      }
      if p == 0 {
        return 0;
      }
      Use(p, size, found.value);
      ptr := p + HEADER;
      if Fits(blocks, request) {
        MallocKeeps(blocks, request);
        TakeRepresented(old(mem), blocks, found.value, size, mem);
        blocks := Take(blocks, found.value, size);
      }
    }

    method HeapBlockJoin(p: int, ghost i: nat)
      requires Represents(mem, blocks) && Spaced(blocks) && i + 2 < |blocks| && p == blocks[i].addr
      requires blocks[i].size + HEADER + blocks[i + 1].size < U32
      modifies this
      ensures Represents(mem, blocks) && Spaced(blocks)
      ensures blocks == Join(old(blocks), i) && OnlyHeaders(old(mem), mem, old(blocks))
    {
      assert LinkedAt(mem, blocks, i) && LinkedAt(mem, blocks, i + 1);
      ghost var size := blocks[i].size + HEADER + blocks[i + 1].size;
      assert blocks[i].addr + HEADER <= blocks[i + 1].addr && blocks[i + 1].addr + HEADER <= blocks[i + 2].addr;
      WriteJoin(p, blocks[i], PrevOf(blocks, i), blocks[i + 1], blocks[i + 2].addr);
      JoinRepresented(old(mem), blocks, i, mem);
      JoinOnlyHeaders(old(mem), blocks, i, size);
      blocks := Join(blocks, i);
    }

    method WriteJoin(p: int, ghost b: Block, ghost prev: int, ghost n: Block, ghost end: int)
      requires HeaderAt(mem, b, prev, n.addr) && HeaderAt(mem, n, b.addr, end) && p == b.addr
      requires b.addr + HEADER <= n.addr && n.addr + HEADER <= end && b.size + HEADER + n.size < U32
      modifies this`mem
      ensures mem == JoinWrites(old(mem), p, b.size + HEADER + n.size, end)
    {
      var next := Read(mem, p + NEXT);
      mem := mem[p + FREE := 1];
      mem := mem[p + SIZE := (Read(mem, p + SIZE) + HEADER + Read(mem, next + SIZE)) % U32];
      var last := Read(mem, next + NEXT);
      mem := mem[p + NEXT := last];
      mem := mem[last + PREV := p];
    }

    /** The walk of `free` from the head: the position of the block with this header. */
    method FindHeader(block: int) returns (found: bool, ghost k: nat)
      requires Represents(mem, blocks) && Walkable(blocks)
      ensures k == Find(blocks, block, 0) && (found <==> k < |blocks|)
    {
      var p, tail := Read(mem, HEAP_SPACE + 4), Read(mem, HEAP_SPACE + 8);
      k := 0;
      while p != tail
        invariant k < |blocks| && p == blocks[k].addr
        invariant Find(blocks, block, 0) == Find(blocks, block, k)
        decreases |blocks| - k
      {
        if p == block {
          return true, k;
        }
        assert LinkedAt(mem, blocks, k);
        p, k := Read(mem, p + NEXT), k + 1;
      }
      return false, |blocks|;
    }

    method MarkFree(block: int, ghost k: nat)
      requires Represents(mem, blocks) && Spaced(blocks) && k < |blocks| && block == blocks[k].addr
      modifies this
      ensures Represents(mem, blocks) && Spaced(blocks)
      ensures blocks == old(blocks)[k := old(blocks)[k].(free := true)]
      ensures OnlyHeaders(old(mem), mem, old(blocks)) && Addresses(blocks) <= Addresses(old(blocks))
    {
      mem := mem[block + FREE := 1];
      FlagRepresented(old(mem), blocks, k, true);
      FlagOnly(old(mem), blocks, k, 1);
      FlagAddresses(blocks, k, true);
      blocks := blocks[k := blocks[k].(free := true)];
    }

    /** Joins block `k` with the one before it, if that is free. */
    method JoinPrevious(block: int, ghost k: nat)
      requires Represents(mem, blocks) && Spaced(blocks) && 0 < k < |blocks| - 1 && block == blocks[k].addr
      requires blocks[k - 1].size + HEADER + blocks[k].size < U32
      modifies this
      ensures Represents(mem, blocks)
      ensures blocks == if old(blocks)[k - 1].free then Join(old(blocks), k - 1) else old(blocks)
      ensures OnlyHeaders(old(mem), mem, old(blocks))
    {
      assert LinkedAt(mem, blocks, k) && LinkedAt(mem, blocks, k - 1);
      var prev := Read(mem, block + PREV);
      if Read(mem, prev + FREE) != 0 {
        HeapBlockJoin(prev, k - 1);
      }
    }

    /** Joins block `k` with the one behind it, if that is free. */
    method JoinNext(block: int, ghost k: nat)
      requires Represents(mem, blocks) && Spaced(blocks) && k < |blocks| - 1 && block == blocks[k].addr
      requires blocks[k + 1].free ==> k + 2 < |blocks|
      requires blocks[k].size + HEADER + blocks[k + 1].size < U32
      modifies this
      ensures Represents(mem, blocks) && Spaced(blocks)
      ensures blocks == if old(blocks)[k + 1].free then Join(old(blocks), k) else old(blocks)
      ensures OnlyHeaders(old(mem), mem, old(blocks)) && Addresses(blocks) <= Addresses(old(blocks))
    {
      assert LinkedAt(mem, blocks, k) && LinkedAt(mem, blocks, k + 1);
      if Read(mem, Read(mem, block + NEXT) + FREE) != 0 {
        JoinAddresses(blocks, k);
        HeapBlockJoin(block, k);
      }
    }

    /** The block is marked free and joined with its free neighbours. */
    method ReleaseAt(block: int, ghost k: nat)
      requires Valid() && Inner(blocks, k) && block == blocks[k].addr
      modifies this
      ensures Represents(mem, blocks) && blocks == Release(old(blocks), k)
      ensures OnlyHeaders(old(mem), mem, old(blocks))
    {
      ghost var m0, b0 := mem, blocks;
      HeapSpaced(b0);
      SizesAround(b0, k);
      MarkFree(block, k);
      ghost var m1, b1 := mem, blocks;
      JoinNext(block, k);
      OnlyHeadersChain(m0, m1, mem, b0, b1);
      ghost var m2, b2 := mem, blocks;
      assert b2[k - 1] == b0[k - 1] && b2[k].addr == block;
      JoinPrevious(block, k);
      OnlyHeadersChain(m0, m2, mem, b0, b2);
    }

    /**
      Exactly what `DoFree` does, writing nothing but headers of the blocks there were.  For
      the payload address of the head sentinel the source then goes on to read the header
      before it, through the null link of the head; `nullRead` tells this.
     */
    method Free(ptr: nat) returns (nullRead: bool)
      requires Valid() && ptr < U32
      modifies this
      ensures nullRead <==> ptr == HEAD + HEADER
      ensures Represents(mem, blocks) && blocks == DoFree(old(blocks), ptr)
      ensures OnlyHeaders(old(mem), mem, old(blocks))
      ensures if nullRead then Read(mem, HEAD + PREV) == 0 else Valid()
    {
      if ptr == 0 {
        return false;
      }
      var block := (ptr - HEADER) % U32;
      HeapWalkable(blocks);
      var found, k := FindHeader(block);
      if !found {
        FreeOfHead(blocks);
        return false;
      }
      FindsListed(blocks, ptr);
      if block == Read(mem, HEAP_SPACE + 4) {
        ReleaseHead(block);
        return true;
      }
      ReleaseKeeps(blocks, k);
      ReleaseAt(block, k);
      return false;
    }

    /** The head is marked free and joined with a free first block. */
    method ReleaseHead(block: int)
      requires Valid() && block == HEAD
      modifies this
      ensures Represents(mem, blocks) && blocks == HeadReleased(old(blocks))
      ensures OnlyHeaders(old(mem), mem, old(blocks)) && Read(mem, HEAD + PREV) == 0
    {
      ghost var m0, b0 := mem, blocks;
      HeapSpaced(b0);
      SizesAround(b0, 1);
      MarkFree(block, 0);
      ghost var m1, b1 := mem, blocks;
      JoinNext(block, 0);
      OnlyHeadersChain(m0, m1, mem, b0, b1);
      assert LinkedAt(mem, blocks, 0);
    }

    method Zero(ptr: nat, total: nat)
      requires ptr % 4 == 0
      modifies this`mem
      ensures Zeroed(mem, ptr, total) && OnlyBetween(old(mem), mem, ptr, ptr + total)
    {
      for i := 0 to total
        invariant Zeroed(mem, ptr, i) && OnlyBetween(old(mem), mem, ptr, ptr + total)
      {
        ZeroedStep(mem, ptr, i);
        ZeroedBetween(old(mem), mem, ptr, i, total);
        mem := ZeroByte(mem, ptr + i);
      }
    }

    /**
      `num * size` is computed in 32 bits.  When that many bytes fit, the result is what
      `malloc` gives for them, all zero.
     */
    method Calloc(num: nat, size: nat) returns (ptr: nat)
      requires Valid() && num < U32 && size < U32
      modifies this
      ensures var total := num * size % U32; var m := DoMalloc(old(blocks), total);
        && ptr == m.ptr && (ptr == 0 ==> mem == old(mem) && blocks == old(blocks))
        && (ptr != 0 && total <= U32 - 8 ==> Zeroed(mem, ptr, total))
        && (Fits(old(blocks), total) && total <= U32 - 8 ==> Valid() && blocks == m.blocks)
    {
      var total := num * size % U32;
      ghost var bs := blocks;
      ptr := Malloc(total);
      if ptr == 0 {
        return;
      }
      ghost var m1 := mem;
      PayloadAligned(bs, WorstFit(bs, AlignSize(total)).value);
      Zero(ptr, total);
      if Fits(bs, total) && total <= U32 - 8 {
        ghost var i := WorstFit(bs, AlignSize(total)).value;
        AlignSizeExact(total);
        TakeOwns(bs, i, AlignSize(total));
        PayloadWritesKeep(m1, mem, blocks, i);
      }
    }
  }
}
