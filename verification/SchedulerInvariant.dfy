/**
  What every step keeps: each thread that was created and not reclaimed is in exactly
  one place, its state says which, and between lock sections the counters are at rest.
  Two steps can break it, and `StepKeeps` says exactly when.
 */
module SchedulerInvariant {
  import opened Common
  import opened Threads
  import opened Scheduler

  predicate Live(s: State, t: Tcb) {
    t in s.info && t !in s.freed
  }

  predicate QueueOk(s: State, q: seq<Tcb>, status: Status) {
    NoDup(q) && forall t :: t in q ==> Live(s, t) && s.info[t].status == status
  }

  predicate Waits(s: State, t: Tcb) {
    exists m :: m in s.sems && t in s.sems[m].waiters
  }

  /** A live thread is somewhere its status allows. */
  predicate Settled(s: State, t: Tcb) {
    match StatusOf(s, t)
    case Running => s.cpu == Thread(t) || t in s.ready
    case Sleeping => t in s.sleeping
    case Terminated => t in s.terminated
    case Paused => t == s.butler || Waits(s, t)
  }

  predicate WaitersOk(s: State) {
    && (forall m :: m in s.sems ==> QueueOk(s, s.sems[m].waiters, Paused))
    && (forall m, n :: m in s.sems && n in s.sems && m != n ==>
          forall t :: t in s.sems[m].waiters ==> t !in s.sems[n].waiters)
  }

  predicate CpuOk(s: State) {
    match s.cpu
    case Thread(c) => Live(s, c) && (StatusOf(s, c) == Running ==> c !in s.ready)
    case Idle(owner) => Live(s, owner) && StatusOf(s, owner) != Terminated
  }

  predicate Registry(s: State) {
    && NoDup(s.created)
    && (forall t :: t in s.created ==> t in s.info)
    && (forall t :: t in s.info ==> t in s.created)
    && (forall t :: t in s.freed ==> t in s.info)
    && Live(s, s.butler) && s.info[s.butler].status != Terminated
  }

  predicate Partition(s: State) {
    && QueueOk(s, s.ready, Running)
    && QueueOk(s, s.sleeping, Sleeping)
    && QueueOk(s, s.terminated, Terminated)
    && WaitersOk(s)
    && CpuOk(s)
    && Registry(s)
    && (forall t :: t in s.info && t !in s.freed ==> Settled(s, t))
    && |s.sleeping| <= s.sleepSize && (s.sleeping == [] <==> s.sleepSize == 0)
  }

  /** Between two lock sections. */
  predicate Inv(s: State) {
    && Partition(s)
    && s.postpone == 0 && !s.flag
    && (s.cpu.Thread? ==> s.irq == 0 && StatusOf(s, s.cpu.tcb) == Running)
    && (s.cpu.Idle? ==> s.irq == 1)
  }

  /** In an outermost section, about to be released. */
  predicate MidInv(x: State) {
    && Partition(x)
    && x.postpone == 1
    && (x.cpu.Thread? ==>
          && x.irq == 1
          && (!x.flag ==> StatusOf(x, x.cpu.tcb) == Running)
          && (StatusOf(x, x.cpu.tcb) == Terminated ==> x.ready != []))
    && (x.cpu.Idle? ==> x.irq == 2 && !x.flag)
  }

  // ---------------------------------------------------------------- releasing a section

  /** The same threads in the same states, waiting for the same semaphores. */
  predicate SameThreads(x: State, r: State) {
    && x.sems.Keys <= r.sems.Keys
    && (forall m :: m in r.sems ==> r.sems[m].waiters == SemOf(x, m).waiters)
    && r.freed == x.freed && r.created == x.created && r.butler == x.butler
    && r.info.Keys == x.info.Keys
    && (forall t :: t in x.info ==> r.info[t].status == x.info[t].status)
  }

  lemma SameThreadsKeep(x: State, r: State)
    requires SameThreads(x, r) && WaitersOk(x) && Registry(x)
    ensures WaitersOk(r) && Registry(r)
    ensures forall t :: t in x.info ==> Waits(r, t) == Waits(x, t)
    ensures forall q, status :: QueueOk(x, q, status) ==> QueueOk(r, q, status)
  {
    forall m | m in r.sems
      ensures QueueOk(r, r.sems[m].waiters, Paused)
    {
      if m in x.sems {
        assert QueueOk(x, x.sems[m].waiters, Paused);
      }
    }
    forall t | t in x.info
      ensures Waits(r, t) == Waits(x, t)
    {
      if Waits(x, t) {
        var m :| m in x.sems && t in x.sems[m].waiters;
        assert t in r.sems[m].waiters;
      }
    }
  }

  /** Nothing moved: counters, semaphore counts and times are free to change. */
  lemma CalmKeeps(s: State, x: State)
    requires Partition(s) && SameThreads(s, x)
    requires x.cpu == s.cpu && x.ready == s.ready && x.sleeping == s.sleeping
    requires x.sleepSize == s.sleepSize && x.terminated == s.terminated
    ensures Partition(x)
  {
    SameThreadsKeep(s, x);
    forall t | Live(x, t)
      ensures Settled(x, t)
    {
      assert Settled(s, t);
    }
  }

  /** What a switch at a release does to the queues and to the CPU. */
  lemma Dispatched(x: State)
    requires x.postpone == 1 && x.flag && x.ready != [] && x.cpu.Thread? && x.cpu.tcb in x.info
    ensures var r, c := UnlockPostponeAndSchedule(x), x.cpu.tcb;
      && SameThreads(x, r) && r.cpu == Thread(x.ready[0])
      && r.ready == x.ready[1..] + (if StatusOf(x, c) == Running then [c] else [])
      && r.sleeping == x.sleeping && r.sleepSize == x.sleepSize && r.terminated == x.terminated
      && r.postpone == 0 && !r.flag && r.irq == x.irq - 1
  {
  }

  lemma DispatchKeeps(x: State)
    requires MidInv(x) && x.flag && x.ready != []
    ensures Inv(UnlockPostponeAndSchedule(x))
  {
    var r := UnlockPostponeAndSchedule(x);
    Dispatched(x);
    SwitchedKeeps(x, r);
  }

  lemma SwitchedKeeps(x: State, r: State)
    requires MidInv(x) && x.flag && x.ready != [] && SameThreads(x, r) && r.cpu == Thread(x.ready[0])
    requires r.ready == x.ready[1..] + (if StatusOf(x, x.cpu.tcb) == Running then [x.cpu.tcb] else [])
    requires r.sleeping == x.sleeping && r.sleepSize == x.sleepSize && r.terminated == x.terminated
    requires r.postpone == 0 && !r.flag && r.irq == x.irq - 1
    ensures Inv(r)
  {
    SameThreadsKeep(x, r);
    assert x.ready == [x.ready[0]] + x.ready[1..];
    forall t | Live(r, t)
      ensures Settled(r, t)
    {
      assert Settled(x, t);
    }
  }

  lemma ReleaseKeeps(x: State)
    requires MidInv(x)
    ensures Inv(UnlockPostponeAndSchedule(x))
  {
    if x.flag && x.ready != [] {
      DispatchKeeps(x);
    } else {
      var r := UnlockPostponeAndSchedule(x);
      SameThreadsKeep(x, r);
      forall t | Live(r, t)
        ensures Settled(r, t)
      {
        assert Settled(x, t);
      }
    }
  }

  // ---------------------------------------------------------------- moving one thread

  /** Only `c` changes state. */
  predicate OnlyRestates(s: State, x: State, c: Tcb) {
    && c in s.info && x.freed == s.freed && x.created == s.created && x.butler == s.butler
    && x.info.Keys == s.info.Keys
    && (forall t :: t in s.info && t != c ==> x.info[t].status == s.info[t].status)
  }

  lemma OtherQueuesKeep(s: State, x: State, c: Tcb)
    requires OnlyRestates(s, x, c)
    ensures forall q, status :: QueueOk(s, q, status) && c !in q ==> QueueOk(x, q, status)
  {
  }

  /** `x` is a mid-section state of a section entered in `s`. */
  predicate Entered(s: State, x: State) {
    x.irq == s.irq + 1 && x.postpone == s.postpone + 1 && x.cpu == s.cpu
  }

  predicate SameQueues(s: State, x: State) {
    && x.sleeping == s.sleeping && x.sleepSize == s.sleepSize && x.terminated == s.terminated
  }

  lemma OthersSettled(s: State, x: State, c: Tcb)
    requires OnlyRestates(s, x, c) && Partition(s)
    requires forall t :: t in s.ready && t != c ==> t in x.ready
    requires forall t :: t in s.sleeping && t != c ==> t in x.sleeping
    requires forall t :: t in s.terminated && t != c ==> t in x.terminated
    requires s.sems.Keys == x.sems.Keys
    requires forall m, t :: m in s.sems && t in s.sems[m].waiters && t != c ==> t in x.sems[m].waiters
    requires x.cpu == s.cpu
    ensures forall t :: Live(x, t) && t != c ==> Settled(x, t)
  {
    forall t | Live(x, t) && t != c
      ensures Settled(x, t)
    {
      assert Settled(s, t);
      if Waits(s, t) {
        var m :| m in s.sems && t in s.sems[m].waiters;
        assert t in x.sems[m].waiters;
      }
    }
  }

  /** Only the waiters of `m` change, to `w`. */
  predicate OnlyWaiters(s: State, x: State, m: Semaphore, w: seq<Tcb>) {
    && m in s.sems && x.sems.Keys == s.sems.Keys && x.sems[m].waiters == w
    && forall n :: n in s.sems && n != m ==> x.sems[n] == s.sems[n]
  }

  lemma WaitersGrow(s: State, x: State, m: Semaphore, c: Tcb)
    requires WaitersOk(s) && OnlyRestates(s, x, c) && m in s.sems
    requires OnlyWaiters(s, x, m, s.sems[m].waiters + [c])
    requires Live(s, c) && StatusOf(s, c) == Running && StatusOf(x, c) == Paused
    ensures WaitersOk(x)
  {
    OtherQueuesKeep(s, x, c);
    forall n | n in s.sems
      ensures c !in s.sems[n].waiters && QueueOk(x, x.sems[n].waiters, Paused)
    {
      assert QueueOk(s, s.sems[n].waiters, Paused);
    }
  }

  lemma WaitersShrink(s: State, x: State, m: Semaphore, c: Tcb)
    requires WaitersOk(s) && OnlyRestates(s, x, c)
    requires m in s.sems && s.sems[m].waiters != [] && c == s.sems[m].waiters[0]
    requires OnlyWaiters(s, x, m, s.sems[m].waiters[1..])
    ensures WaitersOk(x)
    ensures forall n, t :: n in s.sems && t in s.sems[n].waiters && t != c ==> t in x.sems[n].waiters
  {
    OtherQueuesKeep(s, x, c);
    var w := s.sems[m].waiters;
    assert QueueOk(s, w, Paused) && w == [c] + w[1..] && c in w;
    forall n | n in s.sems
      ensures c !in x.sems[n].waiters && QueueOk(x, x.sems[n].waiters, Paused)
    {
      assert QueueOk(s, s.sems[n].waiters, Paused);
    }
  }

  /** The current thread leaves the CPU for the waiters of `m`. */
  lemma BlockedKeeps(s: State, x: State, m: Semaphore)
    requires Inv(s) && s.cpu.Thread? && m in s.sems
    requires Entered(s, x) && SameQueues(s, x) && x.ready == s.ready && x.flag
    requires OnlyRestates(s, x, s.cpu.tcb) && StatusOf(x, s.cpu.tcb) == Paused
    requires OnlyWaiters(s, x, m, s.sems[m].waiters + [s.cpu.tcb])
    ensures MidInv(x)
  {
    var c := s.cpu.tcb;
    OtherQueuesKeep(s, x, c);
    WaitersGrow(s, x, m, c);
    OthersSettled(s, x, c);
    assert c in x.sems[m].waiters;
  }

  /** The first waiter of `m` becomes ready. */
  predicate WakesFirst(s: State, x: State, m: Semaphore) {
    && m in s.sems && s.sems[m].waiters != []
    && OnlyWaiters(s, x, m, s.sems[m].waiters[1..])
    && var t := s.sems[m].waiters[0];
       OnlyRestates(s, x, t) && StatusOf(x, t) == Running && x.ready == s.ready + [t]
  }

  lemma WokenSettled(s: State, x: State, m: Semaphore)
    requires Partition(s) && WakesFirst(s, x, m) && x.cpu == s.cpu && SameQueues(s, x)
    ensures WaitersOk(x)
    ensures forall t :: Live(x, t) ==> Settled(x, t)
  {
    var t := s.sems[m].waiters[0];
    WaitersShrink(s, x, m, t);
    OthersSettled(s, x, t);
  }

  /** A thread that was not RUNNING joins the ready queue. */
  lemma ReadyGrows(s: State, x: State, t: Tcb)
    requires QueueOk(s, s.ready, Running) && CpuOk(s) && Registry(s)
    requires OnlyRestates(s, x, t) && x.ready == s.ready + [t] && x.cpu == s.cpu
    requires Live(s, t) && StatusOf(s, t) != Running && StatusOf(x, t) == Running
    requires s.cpu == Thread(t) ==> StatusOf(s, t) == Running
    ensures QueueOk(x, x.ready, Running) && CpuOk(x) && Registry(x)
  {
  }

  lemma WokenKeeps(s: State, x: State, m: Semaphore)
    requires Inv(s) && WakesFirst(s, x, m)
    requires Entered(s, x) && SameQueues(s, x) && !x.flag
    ensures MidInv(x)
  {
    var t := s.sems[m].waiters[0];
    FirstWaiterKnown(s, m);
    WokenSettled(s, x, m);
    ReadyGrows(s, x, t);
    OtherQueuesKeep(s, x, t);
  }

  lemma FirstWaiterKnown(s: State, m: Semaphore)
    requires Partition(s) && m in s.sems && s.sems[m].waiters != []
    ensures var t := s.sems[m].waiters[0]; Live(s, t) && s.info[t].status == Paused
  {
    assert QueueOk(s, s.sems[m].waiters, Paused);
    assert s.sems[m].waiters[0] in s.sems[m].waiters;
  }

  lemma LockKeeps(s: State, m: Semaphore)
    requires Inv(s) && Enabled(s, Lock(m))
    ensures Inv(LockSemaphore(s, m))
  {
    var x := LockBody(LockPostpone(s), m);
    if s.sems[m].count >= s.sems[m].maxCount {
      BlockedKeeps(s, x, m);
    } else {
      CalmKeeps(s, x);
    }
    ReleaseKeeps(x);
  }

  lemma WaitKeeps(s: State, m: Semaphore)
    requires Inv(s) && Enabled(s, Wait(m))
    ensures Inv(WaitSemaphore(s, m))
  {
    var x := WaitBody(LockPostpone(s), m);
    if s.sems[m].count - 1 < s.sems[m].maxCount {
      BlockedKeeps(s, x, m);
    } else {
      CalmKeeps(s, x);
    }
    ReleaseKeeps(x);
  }

  lemma PostKeeps(s: State, m: Semaphore)
    requires Inv(s) && m in s.sems
    ensures Inv(PostSemaphore(s, m))
  {
    var x := PostBody(LockPostpone(s), m);
    if s.sems[m].waiters != [] {
      FirstWaiterKnown(s, m);
      WokenKeeps(s, x, m);
    } else {
      CalmKeeps(s, x);
    }
    ReleaseKeeps(x);
  }

  lemma UnlockWakes(s: State, m: Semaphore)
    requires s.postpone == 0 && !s.flag && m in s.sems && s.sems[m].waiters != [] && s.sems[m].waiters[0] in s.info
    ensures var x := UnlockBody(LockPostpone(s), m);
      WakesFirst(s, x, m) && Entered(s, x) && SameQueues(s, x) && !x.flag
  {
  }

  lemma UnlockKeeps(s: State, m: Semaphore)
    requires Inv(s) && m in s.sems
    ensures Inv(UnlockSemaphore(s, m))
  {
    var x := UnlockBody(LockPostpone(s), m);
    if s.sems[m].waiters != [] {
      FirstWaiterKnown(s, m);
      UnlockWakes(s, m);
      WokenKeeps(s, x, m);
    } else {
      CalmKeeps(s, x);
    }
    ReleaseKeeps(x);
  }

  lemma NewSemaphoreKeeps(s: State, m: Semaphore, max: int)
    requires Inv(s) && Enabled(s, NewSemaphore(m, max))
    ensures Inv(CreateSemaphore(s, m, max))
  {
    CalmKeeps(s, CreateSemaphore(s, m, max));
  }

  lemma AsleepKeeps(s: State, x: State)
    requires Inv(s) && s.cpu.Thread?
    requires Entered(s, x) && x.ready == s.ready && x.terminated == s.terminated && x.sems == s.sems && x.flag
    requires x.sleeping == s.sleeping + [s.cpu.tcb] && x.sleepSize >= |x.sleeping|
    requires OnlyRestates(s, x, s.cpu.tcb) && StatusOf(x, s.cpu.tcb) == Sleeping
    ensures MidInv(x)
  {
    var c := s.cpu.tcb;
    OtherQueuesKeep(s, x, c);
    NotWaiting(s, x, c);
    OthersSettled(s, x, c);
  }

  lemma SleepKeeps(s: State, until: int)
    requires Inv(s) && Enabled(s, SleepUntil(until))
    ensures Inv(MiliSleepUntil(s, until))
  {
    if until < s.tick {
      CalmKeeps(s, LockPostpone(s));
      ReleaseKeeps(LockPostpone(s));
    } else {
      var x := Schedule(SetStatus(LockPostpone(QueueSleeper(s, until)), s.cpu.tcb, Sleeping));
      AsleepKeeps(s, x);
      ReleaseKeeps(x);
    }
  }

  /** A thread that is not paused waits for nothing, so restating it disturbs no waiters. */
  lemma NotWaiting(s: State, x: State, c: Tcb)
    requires WaitersOk(s) && OnlyRestates(s, x, c) && x.sems == s.sems
    requires StatusOf(s, c) != Paused || !Waits(s, c)
    ensures WaitersOk(x)
  {
    forall n | n in s.sems
      ensures c !in s.sems[n].waiters && QueueOk(x, x.sems[n].waiters, Paused)
    {
      assert QueueOk(s, s.sems[n].waiters, Paused);
    }
  }

  lemma CreateKeeps(s: State, t: Tcb)
    requires Inv(s) && Enabled(s, Create(t))
    ensures Inv(ThreadCreate(s, t))
  {
    var x := LockPostpone(s.(info := s.info[t := Info(Running, 0, 0)], created := s.created + [t])).(ready := s.ready + [t]);
    assert t !in s.ready;
    forall n | n in s.sems
      ensures QueueOk(x, x.sems[n].waiters, Paused)
    {
      assert QueueOk(s, s.sems[n].waiters, Paused);
    }
    forall u | Live(x, u)
      ensures Settled(x, u)
    {
      if u != t {
        assert Settled(s, u);
        if Waits(s, u) {
          var n :| n in s.sems && u in s.sems[n].waiters;
          assert u in x.sems[n].waiters;
        }
      }
    }
    ReleaseKeeps(x);
  }

  lemma IdleTestShape(s: State)
    requires s.cpu.Idle? && s.postpone == 0 && s.ready != [] && s.cpu.owner in s.info
    ensures var r := IdleTest(s);
      && SameThreads(s, r) && r.cpu == Thread(s.ready[0]) && r.ready == s.ready[1..]
      && r.sleeping == s.sleeping && r.sleepSize == s.sleepSize && r.terminated == s.terminated
      && r.postpone == 0 && r.flag == s.flag && r.irq == s.irq - 1
  {
  }

  lemma IdleTestKeeps(s: State)
    requires Inv(s) && s.cpu.Idle?
    ensures Inv(IdleTest(s))
  {
    if s.ready != [] {
      var r := IdleTest(s);
      IdleTestShape(s);
      assert s.ready == [s.ready[0]] + s.ready[1..];
      SameThreadsKeep(s, r);
      forall t | Live(r, t)
        ensures Settled(r, t)
      {
        assert Settled(s, t);
      }
    }
  }

  // ---------------------------------------------------------------- the butler

  /** The first terminated thread is reclaimed. */
  lemma ReclaimKeeps(s: State, x: State)
    requires Inv(s) && s.terminated != [] && s.cpu.Thread?
    requires x == LockPostpone(s).(terminated := s.terminated[1..], freed := s.freed + {s.terminated[0]})
    ensures MidInv(x)
  {
    var t := s.terminated[0];
    assert t in s.terminated;
    WithoutDistinct(s.terminated, 0);
    assert x.terminated == Without(s.terminated, 0);
    forall q, status | QueueOk(s, q, status) && t !in q
      ensures QueueOk(x, q, status)
    {
    }
    assert QueueOk(x, x.terminated, Terminated) by {
      assert QueueOk(s, x.terminated, Terminated);
    }
    forall n | n in s.sems
      ensures QueueOk(x, x.sems[n].waiters, Paused)
    {
      assert QueueOk(s, s.sems[n].waiters, Paused);
    }
    forall u | Live(x, u)
      ensures Settled(x, u)
    {
      assert Settled(s, u);
      if Waits(s, u) {
        var n :| n in s.sems && u in s.sems[n].waiters;
        assert u in x.sems[n].waiters;
      }
    }
  }

  lemma ButlerKeeps(s: State)
    requires Inv(s) && Enabled(s, Butler)
    ensures Inv(ButlerTurn(s))
  {
    var x := ButlerBody(LockPostpone(s));
    if s.terminated == [] {
      OtherQueuesKeep(s, x, s.butler);
      NotWaiting(s, x, s.butler);
      OthersSettled(s, x, s.butler);
    } else {
      ReclaimKeeps(s, x);
    }
    ReleaseKeeps(x);
  }

  /** The butler has blocked itself and is in no queue. */
  predicate ButlerParked(s: State) {
    StatusOf(s, s.butler) == Paused && !Waits(s, s.butler)
  }

  /** A dying thread is in the terminated queue, but still on the CPU. */
  lemma DyingKeeps(s: State, x: State)
    requires Inv(s) && s.cpu.Thread? && s.cpu.tcb != s.butler
    requires x.cpu == s.cpu && x.ready == s.ready && x.sleeping == s.sleeping && x.sleepSize == s.sleepSize
    requires x.sems == s.sems && x.terminated == s.terminated + [s.cpu.tcb]
    requires OnlyRestates(s, x, s.cpu.tcb) && StatusOf(x, s.cpu.tcb) == Terminated
    ensures Partition(x)
  {
    var c := s.cpu.tcb;
    OtherQueuesKeep(s, x, c);
    NotWaiting(s, x, c);
    OthersSettled(s, x, c);
  }

  lemma ButlerWokenKeeps(s: State, x: State)
    requires Partition(s) && s.cpu.Thread? && s.cpu.tcb != s.butler && ButlerParked(s)
    requires x.cpu == s.cpu && SameQueues(s, x) && x.sems == s.sems && x.ready == s.ready + [s.butler]
    requires OnlyRestates(s, x, s.butler) && StatusOf(x, s.butler) == Running
    ensures Partition(x)
  {
    OtherQueuesKeep(s, x, s.butler);
    NotWaiting(s, x, s.butler);
    OthersSettled(s, x, s.butler);
  }

  lemma TerminateKeeps(s: State)
    requires Inv(s) && Enabled(s, Terminate) && ButlerParked(s)
    ensures Inv(TerminateTask(s))
  {
    var x := TerminateBody(LockPostpone(s));
    var x1 := BlockTask(LockPostpone(s).(terminated := s.terminated + [s.cpu.tcb]), Terminated);
    DyingKeeps(s, x1);
    assert Waits(s, s.butler) == Waits(x1, s.butler);
    ButlerWokenKeeps(x1, x);
    ReleaseKeeps(x);
  }

  /** What is left when a thread ends while something is ready: the butler is queued, whatever it was doing. */
  lemma TerminateQueues(s: State)
    requires Inv(s) && Enabled(s, Terminate)
    ensures var r, q := TerminateTask(s), s.ready + [s.butler];
      && r.ready == q[1..] && r.cpu == Thread(q[0]) && StatusOf(r, s.butler) == Running
      && r.sleeping == s.sleeping && r.sems == s.sems
  {
    var x := TerminateBody(LockPostpone(s));
    assert x.ready == s.ready + [s.butler];
  }

  lemma TerminateBreaks(s: State)
    requires Inv(s) && Enabled(s, Terminate) && !ButlerParked(s)
    ensures !Inv(TerminateTask(s))
  {
    var b, r := s.butler, TerminateTask(s);
    TerminateQueues(s);
    assert Settled(s, b);
    if StatusOf(s, b) == Running {
      assert b in s.ready;
      QueuedTwice(s.ready, b, r.ready);
    } else if Waits(s, b) {
      var m :| m in s.sems && b in s.sems[m].waiters;
      assert !QueueOk(r, r.sems[m].waiters, Paused);
    }
  }

  lemma QueuedTwice(q: seq<Tcb>, b: Tcb, left: seq<Tcb>)
    requires b in q && left == (q + [b])[1..]
    ensures b in left && (q[0] != b ==> !NoDup(left))
  {
    var i :| 0 <= i < |q| && q[i] == b;
    assert left[|q| - 1] == b;
    if i > 0 {
      assert left[i - 1] == b;
    }
  }

  // ---------------------------------------------------------------- ticks

  /** The position of the sleeper the next tick wakes; the queue's length if none. */
  function NextWoken(s: State): (i: nat)
    ensures i <= |s.sleeping|
  {
    FirstExpired(s.(tick := s.tick + 1), 0)
  }

  /** The next tick wakes the only sleeper while `size` claims there are more. */
  predicate DrainsStale(s: State) {
    |s.sleeping| == 1 && NextWoken(s) == 0 && s.sleepSize > 1
  }

  lemma SleeperWokenKeeps(s: State, x: State, i: nat)
    requires Inv(s) && i < |s.sleeping|
    requires Entered(s, x) && x.ready == s.ready + [s.sleeping[i]] && x.terminated == s.terminated && x.sems == s.sems
    requires x.sleeping == Without(s.sleeping, i) && |x.sleeping| <= x.sleepSize && (x.sleeping == [] <==> x.sleepSize == 0)
    requires OnlyRestates(s, x, s.sleeping[i]) && StatusOf(x, s.sleeping[i]) == Running
    requires x.flag ==> x.cpu.Thread?
    ensures MidInv(x)
  {
    var t := s.sleeping[i];
    assert t in s.sleeping;
    WithoutDistinct(s.sleeping, i);
    ReadyGrows(s, x, t);
    OtherQueuesKeep(s, x, t);
    NotWaiting(s, x, t);
    OthersSettled(s, x, t);
    assert QueueOk(x, x.sleeping, Sleeping) by {
      assert forall u :: u in x.sleeping ==> u in s.sleeping && u != t;
    }
  }

  /** The sleep queue after the walk of a tick, in its section. */
  function Woken(s: State): (r: State)
    ensures r.cpu == s.cpu && r.flag == s.flag && r.postpone == s.postpone + 1 && r.tick == s.tick + 1
  {
    var i := NextWoken(s);
    (if s.sleepSize > 0 && i < |s.sleeping| then Awoken(s, i) else s).(
      irq := s.irq + 1, postpone := s.postpone + 1, tick := s.tick + 1)
  }

  /** What a tick has done to the queues when it reaches its release. */
  function Ticked(s: State): State {
    Woken(s).(flag := s.flag || (s.cpu.Thread? && (s.tick + 1) % 3 == 0))
  }

  lemma AwokenInSection(s: State, i: nat)
    requires i < |s.sleeping|
    ensures Awoken(LockPostpone(s).(tick := s.tick + 1), i) ==
      Awoken(s, i).(irq := s.irq + 1, postpone := s.postpone + 1, tick := s.tick + 1)
  {
  }

  lemma WakeShape(s: State)
    requires s.postpone == 0 && !s.flag
    ensures WakeSleeper(LockPostpone(s).(tick := s.tick + 1)) == Woken(s)
  {
    SameExpiry(s.(tick := s.tick + 1), LockPostpone(s).(tick := s.tick + 1), 0);
    if NextWoken(s) < |s.sleeping| {
      AwokenInSection(s, NextWoken(s));
    }
  }

  /** Inside a section the timer's request is only remembered. */
  lemma AskShape(x: State, flag: bool)
    requires x.postpone != 0 && flag == (x.flag || (x.cpu.Thread? && x.tick % 3 == 0))
    ensures (if x.cpu.Thread? && x.tick % 3 == 0 then Schedule(x) else x) == x.(flag := flag)
  {
  }

  lemma PitShape(s: State)
    requires s.postpone == 0 && !s.flag
    ensures PitBody(LockPostpone(s)) == Ticked(s)
  {
    WakeShape(s);
    AskShape(Woken(s), s.flag || (s.cpu.Thread? && (s.tick + 1) % 3 == 0));
  }

  lemma TickedWaking(s: State)
    requires Inv(s) && !DrainsStale(s) && NextWoken(s) < |s.sleeping|
    ensures MidInv(Ticked(s))
  {
    var i := NextWoken(s);
    assert s.sleeping[i] in s.sleeping;
    SleeperWokenKeeps(s, Ticked(s), i);
  }

  lemma TickedCalm(s: State)
    requires Inv(s) && NextWoken(s) == |s.sleeping|
    ensures MidInv(Ticked(s))
  {
    CalmKeeps(s, Ticked(s));
  }

  lemma TickMid(s: State)
    requires Inv(s) && !DrainsStale(s)
    ensures MidInv(PitBody(LockPostpone(s)))
  {
    PitShape(s);
    if NextWoken(s) < |s.sleeping| {
      TickedWaking(s);
    } else {
      TickedCalm(s);
    }
  }

  lemma TickKeeps(s: State)
    requires Inv(s) && !DrainsStale(s)
    ensures Inv(PitInterrupt(s))
  {
    TickMid(s);
    ReleaseKeeps(PitBody(LockPostpone(s)));
  }

  lemma SameExpiry(s: State, x: State, i: nat)
    requires x.info == s.info && x.sleeping == s.sleeping && x.tick == s.tick && i <= |s.sleeping|
    ensures FirstExpired(x, i) == FirstExpired(s, i)
    decreases |s.sleeping| - i
  {
  }

  lemma TickBreaks(s: State)
    requires Inv(s) && DrainsStale(s)
    ensures !Inv(PitInterrupt(s))
  {
    PitShape(s);
    var r := PitInterrupt(s);
    assert r.sleeping == [] && r.sleepSize == s.sleepSize - 1;
  }

  // ---------------------------------------------------------------- steps and runs

  predicate Safe(s: State, e: Event) {
    match e
    case Terminate => ButlerParked(s)
    case Tick => !DrainsStale(s)
    case _ => true
  }

  /** A step keeps the invariant exactly when it is safe. */
  lemma StepKeeps(s: State, e: Event)
    requires Inv(s) && Enabled(s, e)
    ensures Inv(Step(s, e)) <==> Safe(s, e)
  {
    match e
    case Lock(m) => LockKeeps(s, m);
    case Unlock(m) => UnlockKeeps(s, m);
    case Wait(m) => WaitKeeps(s, m);
    case Post(m) => PostKeeps(s, m);
    case NewSemaphore(m, max) => NewSemaphoreKeeps(s, m, max);
    case SleepUntil(until) => SleepKeeps(s, until);
    case Create(t) => CreateKeeps(s, t);
    case Terminate => if ButlerParked(s) { TerminateKeeps(s); } else { TerminateBreaks(s); }
    case Butler => ButlerKeeps(s);
    case Tick => if DrainsStale(s) { TickBreaks(s); } else { TickKeeps(s); }
    case Key(m) => PostKeeps(s, m);
    case HltReturns => IdleTestKeeps(s);
  }
}
