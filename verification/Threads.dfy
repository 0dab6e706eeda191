/**
  Thread control blocks by address, and the intrusive singly linked list that the ready,
  sleeping and terminated queues are made of.  A control block carries one `next` link, so
  it can be in at most one list at a time; `size` is kept by the list operations and is not
  always the length of the chain (see `Remove`).
 */
module Threads {
  import opened Common

  /** Addresses of control blocks and of semaphores. */
  type Tcb = nat
  type Semaphore = nat

  datatype Status = Running | Paused | Sleeping | Terminated

  /** The `next` fields of the control blocks. */
  class Links {
    var next: map<Tcb, Option<Tcb>>

    constructor ()
      ensures next == map[]
    {
      next := map[];
    }
  }

  function Without<T>(q: seq<T>, i: nat): seq<T>
    requires i < |q|
  {
    q[..i] + q[i + 1..]
  }

  lemma WithoutDistinct<T>(q: seq<T>, k: nat)
    requires k < |q| && NoDup(q)
    ensures NoDup(Without(q, k)) && q[k] !in Without(q, k)
    ensures forall x :: x in Without(q, k) <==> x in q && x != q[k]
  {
    forall x | x in q && x != q[k]
      ensures x in Without(q, k)
    {
      var i :| 0 <= i < |q| && q[i] == x;
      assert Without(q, k)[if i < k then i else i - 1] == x;
    }
  }

  // ---------------------------------------------------------------- chains

  function At(q: seq<Tcb>, i: nat): Option<Tcb> {
    if i < |q| then Some(q[i]) else None
  }

  predicate LinkedAt(next: map<Tcb, Option<Tcb>>, q: seq<Tcb>, i: nat)
    requires i < |q|
  {
    q[i] in next && next[q[i]] == At(q, i + 1)
  }

  /** `next` links the elements of `q` in order, each once, and ends with null. */
  predicate IsChain(next: map<Tcb, Option<Tcb>>, q: seq<Tcb>) {
    NoDup(q) && forall i :: 0 <= i < |q| ==> LinkedAt(next, q, i)
  }

  /** The links after `t` was put at the end of `q`. */
  function Pushed(next: map<Tcb, Option<Tcb>>, q: seq<Tcb>, t: Tcb): map<Tcb, Option<Tcb>> {
    var n := next[t := None];
    if q == [] then n else n[q[|q| - 1] := Some(t)]
  }

  lemma PushedIsChain(next: map<Tcb, Option<Tcb>>, q: seq<Tcb>, t: Tcb)
    requires IsChain(next, q) && t !in q
    ensures IsChain(Pushed(next, q, t), q + [t])
  {
    forall i | 0 <= i < |q + [t]|
      ensures LinkedAt(Pushed(next, q, t), q + [t], i)
    {
      assert i < |q| ==> LinkedAt(next, q, i);
    }
  }

  /** The links after `q[i]` was taken out of `q`; the first element keeps its link. */
  function Unlinked(next: map<Tcb, Option<Tcb>>, q: seq<Tcb>, i: nat): map<Tcb, Option<Tcb>>
    requires i < |q|
  {
    if i == 0 then next else next[q[i - 1] := At(q, i + 1)][q[i] := None]
  }

  lemma UnlinkedIsChain(next: map<Tcb, Option<Tcb>>, q: seq<Tcb>, i: nat)
    requires IsChain(next, q) && i < |q|
    ensures IsChain(Unlinked(next, q, i), Without(q, i))
  {
    WithoutDistinct(q, i);
    forall j | 0 <= j < |Without(q, i)|
      ensures LinkedAt(Unlinked(next, q, i), Without(q, i), j)
    {
      assert LinkedAt(next, q, if j < i then j else j + 1);
    }
  }

  /** A chain whose own links stay is still a chain. */
  lemma ChainKept(next: map<Tcb, Option<Tcb>>, after: map<Tcb, Option<Tcb>>, q: seq<Tcb>)
    requires IsChain(next, q) && forall t <- q :: t in after && t in next && after[t] == next[t]
    ensures IsChain(after, q)
  {
    forall i | 0 <= i < |q|
      ensures LinkedAt(after, q, i)
    {
      assert LinkedAt(next, q, i) && q[i] in q;
    }
  }

  /** `--size` on a u32. */
  function DecU32(n: nat): nat {
    if n == 0 then U32 - 1 else n - 1
  }

  // ---------------------------------------------------------------- lists

  class ThreadList {
    var head: Option<Tcb>
    var tail: Option<Tcb>
    var size: nat

    /**
      The ends of the list are those of `q`.  An empty list whose `size` is not zero may
      have a stale `tail`.
     */
    predicate Heads(q: seq<Tcb>)
      reads this
    {
      && (q == [] ==> head == None)
      && (q == [] && size == 0 ==> tail == None)
      && (q != [] ==> head == Some(q[0]) && tail == Some(q[|q| - 1]))
    }

    /** And `size` is zero exactly for the empty list and never too small. */
    predicate Holds(q: seq<Tcb>)
      reads this
    {
      Heads(q) && |q| <= size && (q == [] <==> size == 0)
    }

    /** An empty chain under a `tail` that is left over: see `PopFront`. */
    predicate Stale()
      reads this
    {
      head == None && tail.Some? && size > 0
    }

    constructor ()
      ensures Holds([]) && size == 0
    {
      head, tail, size := None, None, 0;
    }

    /** A thread that is in no list becomes the first of the chain, of a stale list too. */
    method PushFront(mem: Links, ptr: Tcb, ghost q: seq<Tcb>)
      requires IsChain(mem.next, q) && Heads(q) && ptr in mem.next
      modifies this, mem
      ensures mem.next == old(mem.next)[ptr := At(q, 0)] && size == old(size) + 1
      ensures head == Some(ptr) && tail == if q == [] then Some(ptr) else old(tail)
      ensures ptr !in q ==>
        IsChain(mem.next, [ptr] + q) && Heads([ptr] + q) && (old(Holds(q)) ==> Holds([ptr] + q))
    {
      if head == None {
        tail := Some(ptr);
        head := Some(ptr);
        mem.next := mem.next[ptr := None];
      } else {
        mem.next := mem.next[ptr := head];
        head := Some(ptr);
      }
      size := size + 1;
      ghost var r := [ptr] + q;
      forall i | 0 <= i < |r| && ptr !in q
        ensures LinkedAt(mem.next, r, i)
      {
        assert i > 0 ==> LinkedAt(old(mem.next), q, i - 1);
      }
    }

    /**
      A thread that is in no list becomes the last of the chain.  A thread that is in this
      one cuts the chain behind itself, or, if it was the last, links to itself; `CutByPush`
      says so.  A stale list stays empty: `head` is not set, and the link of the thread left
      over is overwritten.
     */
    method PushBack(mem: Links, ptr: Tcb, ghost q: seq<Tcb>)
      requires IsChain(mem.next, q) && Heads(q) && ptr in mem.next && (tail.Some? ==> tail.value in mem.next)
      modifies this, mem
      ensures size == old(size) + 1 && tail == Some(ptr)
      ensures !old(Stale()) ==> mem.next == Pushed(old(mem.next), q, ptr) && head == At(q + [ptr], 0)
      ensures !old(Stale()) && ptr !in q ==>
        IsChain(mem.next, q + [ptr]) && Heads(q + [ptr]) && (old(Holds(q)) ==> Holds(q + [ptr]))
      ensures old(Stale()) ==> Stale() && mem.next == old(mem.next)[ptr := None][old(tail).value := Some(ptr)]
    {
      mem.next := mem.next[ptr := None];
      if tail == None {
        tail := Some(ptr);
        head := Some(ptr);
      } else {
        mem.next := mem.next[tail.value := Some(ptr)];
        tail := Some(ptr);
      }
      size := size + 1;
      if ptr !in q {
        PushedIsChain(old(mem.next), q, ptr);
      }
    }

    /**
      The first element leaves.  When `size` says two or more but only one element is
      chained, `tail` keeps pointing at the element that left.
     */
    method PopFront(mem: Links, ghost q: seq<Tcb>) returns (front: Option<Tcb>)
      requires IsChain(mem.next, q) && Heads(q) && |q| <= size && (q == [] ==> size <= 1)
      modifies this
      ensures front == At(q, 0)
      ensures q == [] ==> Holds([]) && size == 0
      ensures q != [] ==> Heads(q[1..]) && size == old(size) - 1
      ensures q != [] ==> (Holds(q[1..]) <==> !(|q| == 1 && old(size) > 1))
      ensures |q| == 1 && old(size) > 1 ==> Stale() && tail == front
    {
      if size < 1 {
        return None;
      }
      front := head;
      assert q != [] ==> LinkedAt(mem.next, q, 0);
      if size == 1 {
        head := None;
        tail := None;
      } else {
        head := mem.next[head.value];
      }
      size := size - 1;
    }

    /** The last element leaves; from a stale list whose `size` is one, the element left over. */
    method PopBack(mem: Links, ghost q: seq<Tcb>) returns (back: Option<Tcb>)
      requires IsChain(mem.next, q) && Heads(q) && |q| <= size && (|q| <= 1 ==> size <= 1)
      modifies this, mem
      ensures q == [] ==> back == old(tail) && Holds([]) && size == 0 && mem.next == old(mem.next)
      ensures q != [] ==>
        && back == Some(q[|q| - 1]) && Holds(q[..|q| - 1]) && size == old(size) - 1
        && mem.next == Unlinked(old(mem.next), q, |q| - 1)
    {
      if size < 1 {
        return None;
      }
      back := tail;
      assert q != [] ==> LinkedAt(mem.next, q, |q| - 1);
      if size == 1 {
        head := None;
        tail := None;
      } else {
        var temp := head.value;
        ghost var i := 0;
        assert LinkedAt(mem.next, q, 0);
        while mem.next[temp] != back
          invariant 0 <= i < |q| - 1 && temp == q[i] && mem.next == old(mem.next)
          invariant LinkedAt(mem.next, q, i)
          decreases |q| - i
        {
          temp, i := mem.next[temp].value, i + 1;
          assert LinkedAt(mem.next, q, i);
        }
        mem.next := mem.next[temp := None];
        tail := Some(temp);
        assert mem.next == Unlinked(old(mem.next), q, |q| - 1);
      }
      size := size - 1;
    }

    /**
      Unlinks `ptr`, which is at position `at` (the length of the queue when it is not
      there).  Removing an interior element leaves `size` one too large, and not finding
      `ptr` decrements `size`: the list is in order afterwards exactly when neither the
      last link nor `size` went wrong.  From a stale list whose `size` is one the element left
      over can be removed.
     */
    method Remove(mem: Links, ptr: Tcb, ghost at: nat, ghost q: seq<Tcb>) returns (r: Option<Tcb>)
      requires IsChain(mem.next, q) && Heads(q) && |q| <= size
      requires q == [] && size > 0 ==> size == 1 && tail == Some(ptr)
      requires at <= |q| && if at < |q| then q[at] == ptr else ptr !in q
      modifies this, mem
      ensures at < |q| ==>
        && r == Some(ptr) && mem.next == Unlinked(old(mem.next), q, at)
        && IsChain(mem.next, Without(q, at)) && Heads(Without(q, at))
        && size == (if at == 0 || at == |q| - 1 then old(size) - 1 else old(size))
        && (Holds(Without(q, at)) <==> !(|q| == 1 && old(size) > 1))
        && (|q| == 1 && old(size) > 1 ==> Stale() && tail == r)
      ensures q == [] && old(size) == 1 ==> r == Some(ptr) && Holds([]) && size == 0 && mem.next == old(mem.next)
      ensures at == |q| && (q != [] || old(size) == 0) ==>
        && r == None && mem.next == old(mem.next)
        && Heads(q) && size == DecU32(old(size))
        && (Holds(q) <==> old(size) > |q| > 0)
    {
      if at < |q| {
        UnlinkedIsChain(mem.next, q, at);
      }
      assert at == 0 && q != [] ==> Without(q, at) == q[1..];
      assert 0 < at == |q| - 1 ==> Without(q, at) == q[..|q| - 1];
      if Some(ptr) == head {
        r := PopFront(mem, q);
        return;
      } else if Some(ptr) == tail {
        r := PopBack(mem, q);
        return;
      }
      var prev: Option<Tcb> := None;
      var i := head;
      ghost var k := 0;
      while i != tail
        invariant q == [] ==> i == None
        invariant q != [] ==> k < |q| && i == Some(q[k]) && k <= at
        invariant k > 0 ==> k < |q| && prev == Some(q[k - 1])
        invariant mem.next == old(mem.next)
        decreases |q| - k
      {
        assert LinkedAt(mem.next, q, k);
        if i == Some(ptr) {
          assert LinkedAt(mem.next, q, k - 1);
          mem.next := mem.next[prev.value := mem.next[mem.next[prev.value].value]];
          mem.next := mem.next[ptr := None];
          return i;
        }
        prev := i;
        i := mem.next[i.value];
        k := k + 1;
      }
      size := DecU32(size);
      return None;
    }
  }

  /**
    The chain from `head` after pushing a thread that is already in it: it stops there, what
    followed is out of reach, or, if the thread was the last, it links to itself for ever.
   */
  lemma CutByPush(next: map<Tcb, Option<Tcb>>, q: seq<Tcb>, i: nat)
    requires IsChain(next, q) && i < |q|
    ensures i + 1 < |q| ==> IsChain(Pushed(next, q, q[i]), q[..i + 1])
    ensures i + 1 == |q| ==> Pushed(next, q, q[i])[q[i]] == Some(q[i])
  {
    var r := q[..i + 1];
    forall j | 0 <= j < |r| && i + 1 < |q|
      ensures LinkedAt(Pushed(next, q, q[i]), r, j)
    {
      assert LinkedAt(next, q, j);
    }
  }

  /**
    What `PushBack` on a stale list does to the chain `q` that the left-over tail `q[i]` has
    joined since: it now leads on to the thread just pushed, and what followed is out of reach.
   */
  lemma CutByStaleTail(next: map<Tcb, Option<Tcb>>, q: seq<Tcb>, i: nat, ptr: Tcb)
    requires IsChain(next, q) && i < |q| && ptr !in q
    ensures IsChain(next[ptr := None][q[i] := Some(ptr)], q[..i + 1] + [ptr])
  {
    var r := q[..i + 1] + [ptr];
    var n := next[ptr := None][q[i] := Some(ptr)];
    forall j | 0 <= j < |r|
      ensures LinkedAt(n, r, j)
    {
      assert j < i ==> LinkedAt(next, q, j);
    }
  }
}
