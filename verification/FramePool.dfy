/** Physical frames as values: the stack of free frames beside the status of every frame. */
module FramePool {
  import opened Common

  datatype PageStatus = FREE | ALLOCATED | SYSTEM | ACPI

  /** Addresses of free frames, the top of the stack last; status by frame number. */
  datatype Pool = Pool(free: seq<nat>, status: seq<PageStatus>)

  predicate CanTake(p: Pool) {
    p.free != [] && Top(p) / 0x1000 < |p.status|
  }

  function Top(p: Pool): nat
    requires p.free != []
  {
    p.free[|p.free| - 1]
  }

  /** `k_alloc`. */
  function Take(p: Pool, status: PageStatus): Pool
    requires CanTake(p)
  {
    Pool(p.free[..|p.free| - 1], p.status[Top(p) / 0x1000 := status])
  }

  predicate CanGive(p: Pool, x: nat) {
    x % 0x1000 == 0 && x / 0x1000 < |p.status|
  }

  /** `kfree`. */
  function Give(p: Pool, x: nat): Pool
    requires CanGive(p, x)
  {
    Pool(p.free + [x], p.status[x / 0x1000 := FREE])
  }

  /** A stack entry is a managed frame that the status table calls free. */
  predicate Listed(p: Pool, managed: set<nat>, x: nat) {
    x % 0x1000 == 0 && x / 0x1000 in managed && x / 0x1000 < |p.status| && p.status[x / 0x1000] == FREE
  }

  /** The stack holds each free managed frame once and nothing else. */
  predicate Agree(p: Pool, managed: set<nat>) {
    && NoDup(p.free)
    && (forall i :: 0 <= i < |p.free| ==> Listed(p, managed, p.free[i]))
    && (forall n <- managed :: n < |p.status|)
    && (forall n <- managed :: p.status[n] == FREE ==> n * 0x1000 in p.free)
  }

  // ---------------------------------------------------------------- single operations

  lemma TakeKeeps(p: Pool, managed: set<nat>, status: PageStatus)
    requires Agree(p, managed) && CanTake(p)
    ensures Agree(Take(p, status), managed) <==> status != FREE
  {
    var q, n := Take(p, status), Top(p) / 0x1000;
    assert Listed(p, managed, Top(p));
    if status == FREE {
      assert n * 0x1000 == Top(p) && Top(p) !in q.free;
    } else {
      TakenListed(p, managed, status);
      TakenStocked(p, managed, status);
    }
  }

  lemma TakenListed(p: Pool, managed: set<nat>, status: PageStatus)
    requires Agree(p, managed) && CanTake(p)
    ensures var q := Take(p, status); forall i :: 0 <= i < |q.free| ==> Listed(q, managed, q.free[i])
  {
    var q := Take(p, status);
    forall i | 0 <= i < |q.free| ensures Listed(q, managed, q.free[i]) {
      assert Listed(p, managed, p.free[i]) && Listed(p, managed, Top(p)) && p.free[i] != Top(p);
    }
  }

  lemma TakenStocked(p: Pool, managed: set<nat>, status: PageStatus)
    requires Agree(p, managed) && CanTake(p) && status != FREE
    ensures var q := Take(p, status); forall m <- managed :: q.status[m] == FREE ==> m * 0x1000 in q.free
  {
    var q := Take(p, status);
    forall m <- managed | q.status[m] == FREE ensures m * 0x1000 in q.free {
      assert m * 0x1000 in p.free && m * 0x1000 != Top(p);
    }
  }

  lemma GiveKeeps(p: Pool, managed: set<nat>, x: nat)
    requires Agree(p, managed) && CanGive(p, x)
    ensures Agree(Give(p, x), managed) <==> x / 0x1000 in managed && p.status[x / 0x1000] != FREE
  {
    var q := Give(p, x);
    assert q.free[|p.free|] == x;
    if x / 0x1000 in managed && p.status[x / 0x1000] == FREE {
      assert (x / 0x1000) * 0x1000 == x;
      var i :| 0 <= i < |p.free| && p.free[i] == x;
      assert q.free[i] == x;
    } else if x / 0x1000 in managed {
      forall i | 0 <= i < |q.free| ensures Listed(q, managed, q.free[i]) {
        assert i < |p.free| ==> Listed(p, managed, p.free[i]);
      }
      forall i, j | 0 <= i < j < |q.free| ensures q.free[i] != q.free[j] {
        assert Listed(p, managed, p.free[i]);
      }
      forall m <- managed | q.status[m] == FREE ensures m * 0x1000 in q.free {
        if m != x / 0x1000 {
          assert m * 0x1000 in p.free;
        }
      }
    } else {
      assert !Listed(q, managed, x);
    }
  }

  /** The frame handed out was free, is managed, and is nowhere on the stack afterwards. */
  lemma TakeGrants(p: Pool, managed: set<nat>, status: PageStatus)
    requires Agree(p, managed) && p.free != []
    ensures CanTake(p) && Top(p) % 0x1000 == 0 && Top(p) / 0x1000 in managed
    ensures p.status[Top(p) / 0x1000] == FREE && Take(p, status).status[Top(p) / 0x1000] == status
    ensures Top(p) !in Take(p, status).free
  {
    assert Listed(p, managed, Top(p));
  }

  /** Freeing a frame and allocating gives the same frame and changes its status only. */
  lemma GiveThenTake(p: Pool, x: nat, status: PageStatus)
    requires CanGive(p, x)
    ensures CanTake(Give(p, x)) && Top(Give(p, x)) == x
    ensures Take(Give(p, x), status) == p.(status := p.status[x / 0x1000 := status])
  {
    assert (p.free + [x])[..|p.free|] == p.free;
    assert p.status[x / 0x1000 := FREE][x / 0x1000 := status] == p.status[x / 0x1000 := status];
  }

  /** Allocating and freeing again restores the pool. */
  lemma TakeThenGive(p: Pool, managed: set<nat>, status: PageStatus)
    requires Agree(p, managed) && p.free != []
    ensures CanTake(p) && CanGive(Take(p, status), Top(p))
    ensures Give(Take(p, status), Top(p)) == p
  {
    var n := Top(p) / 0x1000;
    assert Listed(p, managed, Top(p));
    assert p.status[n := status][n := FREE] == p.status;
  }

  // ---------------------------------------------------------------- conservation

  function Taken(p: Pool, managed: set<nat>): set<nat> {
    set n <- managed | n >= |p.status| || p.status[n] != FREE
  }

  function FramesOf(s: seq<nat>): set<nat> {
    if s == [] then {} else FramesOf(s[..|s| - 1]) + {s[|s| - 1] / 0x1000}
  }

  lemma {:induction false} InFramesOf(s: seq<nat>, n: nat)
    ensures n in FramesOf(s) <==> exists x <- s :: x / 0x1000 == n
  {
    if s != [] {
      var t, last := s[..|s| - 1], s[|s| - 1];
      InFramesOf(t, n);
      assert last in s && forall x :: x in s <==> x in t || x == last;
    }
  }

  /** No two addresses lie in the same frame. */
  predicate OnePerFrame(s: seq<nat>) {
    forall i, j :: 0 <= i < j < |s| ==> s[i] / 0x1000 != s[j] / 0x1000
  }

  lemma {:induction false} FramesOfSize(s: seq<nat>)
    requires OnePerFrame(s)
    ensures |FramesOf(s)| == |s|
  {
    if s != [] {
      var t, x := s[..|s| - 1], s[|s| - 1];
      FramesOfSize(t);
      InFramesOf(t, x / 0x1000);
      assert x / 0x1000 !in FramesOf(t);
    }
  }

  lemma ListedOnce(p: Pool, managed: set<nat>)
    requires Agree(p, managed)
    ensures OnePerFrame(p.free)
  {
    forall i, j | 0 <= i < j < |p.free| ensures p.free[i] / 0x1000 != p.free[j] / 0x1000 {
      assert Listed(p, managed, p.free[i]) && Listed(p, managed, p.free[j]);
    }
  }

  /** Free frames on the stack and frames taken add up to the managed ones, in every agreeing state. */
  lemma Conserved(p: Pool, managed: set<nat>)
    requires Agree(p, managed)
    ensures |p.free| + |Taken(p, managed)| == |managed|
  {
    ListedOnce(p, managed);
    FramesOfSize(p.free);
    forall n ensures n in FramesOf(p.free) <==> n in managed && n !in Taken(p, managed) {
      FreeFrame(p, managed, n);
    }
    Partition(managed, FramesOf(p.free), Taken(p, managed));
  }

  lemma FreeFrame(p: Pool, managed: set<nat>, n: nat)
    requires Agree(p, managed)
    ensures n in FramesOf(p.free) <==> n in managed && p.status[n] == FREE
  {
    InFramesOf(p.free, n);
    if x :| x in p.free && x / 0x1000 == n {
      assert Listed(p, managed, x);
    }
    if n in managed && p.status[n] == FREE {
      assert n * 0x1000 in p.free && (n * 0x1000) / 0x1000 == n;
    }
  }

  lemma Partition(all: set<nat>, part: set<nat>, rest: set<nat>)
    requires rest <= all && forall n :: n in part <==> n in all && n !in rest
    ensures |part| + |rest| == |all|
  {
    assert all == part + rest && part !! rest;
  }

  lemma HeldNotListed(p: Pool, managed: set<nat>, n: nat)
    requires Agree(p, managed) && n in managed && p.status[n] != FREE
    ensures n * 0x1000 !in p.free
  {
    forall i | 0 <= i < |p.free| ensures p.free[i] != n * 0x1000 {
      assert Listed(p, managed, p.free[i]);
    }
  }

  lemma {:induction false} BelowBound(s: set<nat>, bound: nat)
    requires forall n <- s :: n < bound
    ensures |s| <= bound
  {
    if bound == 0 {
      assert s == {};
    } else if bound - 1 in s {
      BelowBound(s - {bound - 1}, bound - 1);
      assert s == (s - {bound - 1}) + {bound - 1};
    } else {
      BelowBound(s, bound - 1);
    }
  }

  /** One cell a frame and one more is enough: a frame that may be freed finds room on the stack. */
  lemma RoomToGive(p: Pool, managed: set<nat>, x: nat)
    requires Agree(p, managed) && CanGive(p, x) && Agree(Give(p, x), managed)
    ensures |p.free| + 1 <= |p.status|
  {
    Conserved(Give(p, x), managed);
    BelowBound(managed, |p.status|);
  }

  // ---------------------------------------------------------------- runs

  datatype Op = Alloc(status: PageStatus) | Free(x: nat)

  /** The call does not panic. */
  predicate Can(p: Pool, op: Op) {
    match op
    case Alloc(_) => CanTake(p)
    case Free(x) => CanGive(p, x)
  }

  function Step(p: Pool, op: Op): Pool
    requires Can(p, op)
  {
    match op
    case Alloc(status) => Take(p, status)
    case Free(x) => Give(p, x)
  }

  predicate Possible(p: Pool, ops: seq<Op>)
    decreases |ops|
  {
    ops == [] || (Can(p, ops[0]) && Possible(Step(p, ops[0]), ops[1..]))
  }

  function Run(p: Pool, ops: seq<Op>): Pool
    requires Possible(p, ops)
    decreases |ops|
  {
    if ops == [] then p else Run(Step(p, ops[0]), ops[1..])
  }

  /** What a caller can check before the call. */
  predicate Legal(p: Pool, managed: set<nat>, op: Op) {
    match op
    case Alloc(status) => status != FREE
    case Free(x) => x / 0x1000 in managed && x / 0x1000 < |p.status| && p.status[x / 0x1000] != FREE
  }

  predicate AllLegal(p: Pool, managed: set<nat>, ops: seq<Op>)
    requires Possible(p, ops)
    decreases |ops|
  {
    ops == [] || (Legal(p, managed, ops[0]) && AllLegal(Step(p, ops[0]), managed, ops[1..]))
  }

  predicate AgreeThroughout(p: Pool, managed: set<nat>, ops: seq<Op>)
    requires Possible(p, ops)
    decreases |ops|
  {
    Agree(p, managed) && (ops == [] || AgreeThroughout(Step(p, ops[0]), managed, ops[1..]))
  }

  lemma StepKeeps(p: Pool, managed: set<nat>, op: Op)
    requires Agree(p, managed) && Can(p, op)
    ensures Agree(Step(p, op), managed) <==> Legal(p, managed, op)
  {
    match op
    case Alloc(status) => TakeKeeps(p, managed, status);
    case Free(x) => GiveKeeps(p, managed, x);
  }

  /** Stack and table agree after every step of a run exactly when every call in it is legal. */
  lemma {:induction false} RunKeeps(p: Pool, managed: set<nat>, ops: seq<Op>)
    requires Agree(p, managed) && Possible(p, ops)
    ensures AgreeThroughout(p, managed, ops) <==> AllLegal(p, managed, ops)
    decreases |ops|
  {
    if ops != [] {
      StepKeeps(p, managed, ops[0]);
      if Legal(p, managed, ops[0]) {
        RunKeeps(Step(p, ops[0]), managed, ops[1..]);
      }
    }
  }

  /** Over a legal run the number of free and taken frames together does not change. */
  lemma {:induction false} RunConserves(p: Pool, managed: set<nat>, ops: seq<Op>)
    requires Agree(p, managed) && Possible(p, ops) && AllLegal(p, managed, ops)
    ensures Agree(Run(p, ops), managed)
    ensures |Run(p, ops).free| + |Taken(Run(p, ops), managed)| == |p.free| + |Taken(p, managed)|
    decreases |ops|
  {
    Conserved(p, managed);
    if ops != [] {
      StepKeeps(p, managed, ops[0]);
      RunConserves(Step(p, ops[0]), managed, ops[1..]);
      Conserved(Step(p, ops[0]), managed);
    }
  }

  /** A frame somebody holds keeps its status and is not handed out again until it is freed. */
  lemma {:induction false} HeldKept(p: Pool, managed: set<nat>, ops: seq<Op>, n: nat)
    requires Agree(p, managed) && Possible(p, ops) && AllLegal(p, managed, ops)
    requires n in managed && p.status[n] != FREE && Free(n * 0x1000) !in ops
    ensures n < |Run(p, ops).status| && Run(p, ops).status[n] == p.status[n]
    ensures n * 0x1000 !in Run(p, ops).free
    decreases |ops|
  {
    HeldNotListed(p, managed, n);
    if ops != [] {
      var q := Step(p, ops[0]);
      StepKeeps(p, managed, ops[0]);
      if ops[0].Alloc? {
        assert Listed(p, managed, Top(p));
      } else {
        assert ops[0].x == (ops[0].x / 0x1000) * 0x1000;
      }
      assert q.status[n] == p.status[n];
      HeldKept(q, managed, ops[1..], n);
    }
  }
}
