/**
  The two unsafe steps over the links.  A thread that is queued although it already is in a
  queue cuts that queue; a thread that ends while the butler is not parked does just this.
 */
module QueueSafety {
  import opened Common
  import opened Threads
  import opened ThreadQueues
  import opened Scheduler
  import opened SchedulerInvariant
  import opened SchedulerWitnesses

  /** Between sections the thread on the CPU is in no queue. */
  lemma CpuFree(m: State)
    requires Inv(m) && m.cpu.Thread?
    ensures InNoQueue(m, m.cpu.tcb)
  {
    forall s | s in m.sems ensures m.cpu.tcb !in m.sems[s].waiters {
      assert QueueOk(m, m.sems[s].waiters, Paused);
    }
  }

  /** A thread can end safely exactly when the butler is in no queue. */
  lemma SafeTerminate(m: State)
    requires Inv(m) && Enabled(m, Terminate)
    ensures Safe(m, Terminate) <==> InNoQueue(m, m.butler)
  {
    assert Settled(m, m.butler);
  }

  /**
    Thread `i` of queue `k` is pushed onto the ready list.  Its own queue ends behind it; in
    the ready list this happens too, or, at its end, the thread links to itself.
   */
  lemma QueuedPushCuts(m: State, tags: map<Tcb, Tag>, next: map<Tcb, Option<Tcb>>, k: Slot, i: nat)
    requires Chained(m, tags, next) && i < |QueueOf(m, k)|
    ensures var q := QueueOf(m, k); var n := Pushed(next, m.ready, q[i]);
      && (k != Ready ==> IsChain(n, m.ready + [q[i]]) && IsChain(n, q[..i + 1]))
      && (k == Ready && i + 1 < |q| ==> IsChain(n, q[..i + 1]))
      && (k == Ready && i + 1 == |q| ==> n[q[i]] == Some(q[i]))
  {
    var q := QueueOf(m, k);
    assert Slotted(m, tags, next, k) && Slotted(m, tags, next, Ready);
    if k == Ready {
      CutByPush(next, q, i);
    } else {
      assert q[i] in q;
      PushedIsChain(next, m.ready, q[i]);
      CutElsewhere(next, m.ready, q, i);
    }
  }

  lemma CutElsewhere(next: map<Tcb, Option<Tcb>>, ready: seq<Tcb>, q: seq<Tcb>, i: nat)
    requires IsChain(next, q) && i < |q| && forall t <- q :: t !in ready
    ensures IsChain(Pushed(next, ready, q[i]), q[..i + 1])
  {
    var r := q[..i + 1];
    assert ready != [] ==> ready[|ready| - 1] in ready;
    forall j | 0 <= j < |r|
      ensures LinkedAt(Pushed(next, ready, q[i]), r, j)
    {
      assert LinkedAt(next, q, j) && q[j] in q;
    }
  }

  /** The links after `terminate_task` has queued the dying thread and the butler. */
  function AfterTerminate(m: State, next: map<Tcb, Option<Tcb>>): map<Tcb, Option<Tcb>>
    requires m.cpu.Thread?
  {
    Pushed(Pushed(next, m.terminated, m.cpu.tcb), m.ready, m.butler)
  }

  /** Wherever the butler was, everything behind it is out of reach after an unsafe termination. */
  lemma TerminateCuts(m: State, tags: map<Tcb, Tag>, next: map<Tcb, Option<Tcb>>, k: Slot, i: nat)
    requires Inv(m) && Enabled(m, Terminate) && Chained(m, tags, next)
    requires i < |QueueOf(m, k)| && QueueOf(m, k)[i] == m.butler
    ensures var q, n := QueueOf(m, k), AfterTerminate(m, next);
      && (k != Ready ==> IsChain(n, m.ready + [m.butler]) && IsChain(n, q[..i + 1]))
      && (k == Ready && i + 1 < |q| ==> IsChain(n, q[..i + 1]))
      && (k == Ready && i + 1 == |q| ==> n[m.butler] == Some(m.butler))
  {
    var c := m.cpu.tcb;
    var r := m.(terminated := m.terminated + [c]);
    CpuFree(m);
    OffIsNowhere(m, tags, next, c);
    PushKeeps(m, r, tags, next, Dead, c);
    assert m.butler in QueueOf(m, k);
    QueuedPushCuts(r, tags[c := On(Dead)], Pushed(next, m.terminated, c), k, i);
  }

  /**
    This happens: after `es` the links of the kernel, whatever they are, lose thread `a` when
    `b` ends, while `size` of the ready list counts it and the butler twice.
   */
  lemma ThreadIsLost(k: Tcb, a: Tcb, b: Tcb, c: Tcb, tags: map<Tcb, Tag>, next: map<Tcb, Option<Tcb>>)
    returns (es: seq<Event>, r: State)
    requires k != a && k != b && k != c && a != b && a != c && b != c
    ensures Possible(Init(k), es) && r == Run(Init(k), es) && Inv(r) && Enabled(r, Terminate)
    ensures r.ready == [c, k, a]
    ensures Chained(r, tags, next) ==> IsChain(AfterTerminate(r, next), [c, k])
  {
    es, r := ButlerInTheMiddle(k, a, b, c);
    if Chained(r, tags, next) {
      TerminateCuts(r, tags, next, Ready, 1);
      assert r.ready[..2] == [c, k];
    }
  }
}
