/** Where the time goes: every tick that was read is charged to exactly one thread. */
module SchedulerTime {
  import opened Common
  import opened Threads
  import opened Scheduler
  import opened SchedulerInvariant
  import opened SchedulerEffects
  import opened SchedulerRuns

  /** Time used by all the threads of `q` together. */
  function TotalUsed(info: map<Tcb, Info>, q: seq<Tcb>): int {
    if q == [] then 0
    else
      var t := q[|q| - 1];
      TotalUsed(info, q[..|q| - 1]) + if t in info then info[t].timeUsed else 0
  }

  /** What has been charged, to threads and to idling, less what has been read off the clock. */
  function Balance(s: State): int {
    TotalUsed(s.info, s.created) + s.idleTime - s.lastRead
  }

  lemma {:induction false} TotalSame(a: map<Tcb, Info>, b: map<Tcb, Info>, q: seq<Tcb>)
    requires forall t :: t in q ==> t in a && t in b && a[t].timeUsed == b[t].timeUsed
    ensures TotalUsed(a, q) == TotalUsed(b, q)
  {
    if q != [] {
      TotalSame(a, b, q[..|q| - 1]);
    }
  }

  lemma {:induction false} TotalCharged(a: map<Tcb, Info>, b: map<Tcb, Info>, q: seq<Tcb>, c: Tcb, delta: int)
    requires NoDup(q) && c in q
    requires forall t :: t in q ==> t in a && t in b
    requires forall t :: t in q ==> b[t].timeUsed == a[t].timeUsed + if t == c then delta else 0
    ensures TotalUsed(b, q) == TotalUsed(a, q) + delta
  {
    var n := |q| - 1;
    if q[n] == c {
      TotalSame(a, b, q[..n]);
    } else {
      TotalCharged(a, b, q[..n], c, delta);
    }
  }

  // ---------------------------------------------------------------- every thread is registered

  predicate AllIn(q: seq<Tcb>, created: seq<Tcb>) {
    forall t :: t in q ==> t in created
  }

  function Runner(s: State): Tcb {
    match s.cpu
    case Thread(t) => t
    case Idle(owner) => owner
  }

  /** Whatever the queues lead to is a thread that was created. */
  predicate Registered(s: State) {
    && NoDup(s.created)
    && (forall t :: t in s.created ==> t in s.info)
    && (forall t :: t in s.info ==> t in s.created)
    && AllIn(s.ready, s.created) && AllIn(s.sleeping, s.created)
    && (forall m :: m in s.sems ==> AllIn(s.sems[m].waiters, s.created))
    && Runner(s) in s.created && s.butler in s.created
  }

  lemma InvRegistered(s: State)
    requires Inv(s)
    ensures Registered(s)
  {
    forall m | m in s.sems
      ensures AllIn(s.sems[m].waiters, s.created)
    {
      assert QueueOk(s, s.sems[m].waiters, Paused);
    }
  }

  lemma SectionQueues(s: State, e: Event)
    requires Registered(s) && Enabled(s, e) && IsSection(e)
    ensures var x := AtRelease(s, e);
      AllIn(x.ready, x.created) && AllIn(x.sleeping, x.created) && Runner(x) in x.created && x.butler in x.created
  {
    if e.Tick? && NextWoken(s) < |s.sleeping| {
      assert s.sleeping[NextWoken(s)] in s.sleeping;
    }
  }

  lemma SectionRegistered(s: State, e: Event)
    requires Registered(s) && Enabled(s, e) && IsSection(e)
    ensures Registered(AtRelease(s, e))
  {
    var x := AtRelease(s, e);
    SectionQueues(s, e);
    if e.Tick? && NextWoken(s) < |s.sleeping| {
      assert s.sleeping[NextWoken(s)] in s.sleeping;
    }
    forall m | m in x.sems
      ensures AllIn(x.sems[m].waiters, x.created)
    {
      assert m in s.sems && AllIn(s.sems[m].waiters, s.created);
    }
  }

  /** A section itself charges nobody. */
  predicate SameTimes(s: State, x: State) {
    forall t :: t in s.info ==> t in x.info && x.info[t].timeUsed == s.info[t].timeUsed
  }

  predicate OnSemaphore(e: Event) {
    e.Lock? || e.Wait? || e.Unlock? || e.Post? || e.Key?
  }

  lemma SemaphoreSameTimes(s: State, e: Event)
    requires Registered(s) && Enabled(s, e) && OnSemaphore(e)
    ensures SameTimes(s, AtRelease(s, e))
  {
  }

  lemma OtherSameTimes(s: State, e: Event)
    requires Registered(s) && Enabled(s, e) && IsSection(e) && !OnSemaphore(e)
    ensures SameTimes(s, AtRelease(s, e))
  {
  }

  lemma SectionSameTimes(s: State, e: Event)
    requires Registered(s) && Enabled(s, e) && IsSection(e)
    ensures SameTimes(s, AtRelease(s, e))
  {
    if OnSemaphore(e) {
      SemaphoreSameTimes(s, e);
    } else {
      OtherSameTimes(s, e);
    }
  }

  lemma SectionTimes(s: State, e: Event)
    requires Registered(s) && Enabled(s, e) && IsSection(e)
    ensures var x := AtRelease(s, e);
      && x.lastRead == s.lastRead && x.idleTime == s.idleTime && SameTimes(s, x)
      && (x.created == s.created
          || exists t :: x.created == s.created + [t] && t in x.info && x.info[t].timeUsed == 0)
  {
    var x := AtRelease(s, e);
    SectionSameTimes(s, e);
    if e.Create? {
      assert x.created == s.created + [e.t];
    } else {
      assert x.created == s.created;
    }
  }

  lemma SectionChargesNobody(s: State, e: Event)
    requires Registered(s) && Enabled(s, e) && IsSection(e)
    ensures Balance(AtRelease(s, e)) == Balance(s)
  {
    var x := AtRelease(s, e);
    SectionTimes(s, e);
    NobodyCharged(s, x);
  }

  lemma NobodyCharged(s: State, x: State)
    requires Registered(s) && x.lastRead == s.lastRead && x.idleTime == s.idleTime
    requires SameTimes(s, x)
    requires x.created == s.created || exists t :: x.created == s.created + [t] && t in x.info && x.info[t].timeUsed == 0
    ensures Balance(x) == Balance(s)
  {
    TotalSame(s.info, x.info, s.created);
    if x.created != s.created {
      assert x.created[..|x.created| - 1] == s.created;
    }
  }

  /** A release, or the end of idling, charges the thread that leaves the CPU, in full. */
  lemma SwitchCharges(s: State, r: State)
    requires Registered(s) && r == UpdateTimeUsed(s) && s.cpu.Thread?
    ensures Balance(r) == Balance(s) && r.lastRead == s.tick && r.idleTime == s.idleTime
  {
    TotalCharged(s.info, r.info, s.created, s.cpu.tcb, s.tick - s.lastRead);
  }

  lemma ReleaseBalances(x: State)
    requires Registered(x) && x.postpone == 1 && (x.flag ==> x.cpu.Thread?)
    ensures var r := UnlockPostponeAndSchedule(x);
      Balance(r) == Balance(x) && r.idleTime == x.idleTime
  {
    var r := UnlockPostponeAndSchedule(x);
    if x.flag && x.ready != [] {
      SwitchCharges(x, UpdateTimeUsed(x));
      assert r.info == UpdateTimeUsed(x).info;
    }
  }

  lemma IdleTestBalances(s: State)
    requires Registered(s) && s.cpu.Idle? && s.postpone == 0
    ensures var r := IdleTest(s); Balance(r) == Balance(s) && r.idleTime == s.idleTime
  {
    if s.ready != [] {
      var s1 := s.(cpu := Thread(s.cpu.owner));
      SwitchCharges(s1, UpdateTimeUsed(s1));
      assert s.ready[0] != s.cpu.owner ==> IdleTest(s).info == UpdateTimeUsed(s1).info;
    }
  }

  lemma StepBalances(s: State, e: Event)
    requires Inv(s) && Enabled(s, e) && Safe(s, e)
    ensures var r := Step(s, e); Balance(r) == Balance(s) && r.idleTime == s.idleTime
  {
    InvRegistered(s);
    if IsSection(e) {
      StepShape(s, e);
      SectionRegistered(s, e);
      SectionChargesNobody(s, e);
      ReleaseBalances(AtRelease(s, e));
    } else if e.HltReturns? {
      IdleTestBalances(s);
    }
  }

  /**
    Over any safe run, what is added to `time_used` of all threads ever created is exactly
    what is added to `last_read_tick`, and nothing is ever charged to `idleCPUTime`: the
    current thread is restored before the switch that ends idling.
   */
  lemma {:induction false} TimeConserved(s: State, es: seq<Event>)
    requires Inv(s) && Possible(s, es) && SafeThroughout(s, es)
    ensures var r := Run(s, es);
      && TotalUsed(r.info, r.created) - TotalUsed(s.info, s.created) == r.lastRead - s.lastRead
      && r.idleTime == s.idleTime
    decreases |es|
  {
    if es != [] {
      StepBalances(s, es[0]);
      StepKeeps(s, es[0]);
      TimeConserved(Step(s, es[0]), es[1..]);
    }
  }

  // ---------------------------------------------------------------- thread by thread

  lemma ReleaseCharges(x: State, t: Tcb)
    requires x.postpone == 1 && (x.flag ==> x.cpu.Thread?) && Runner(x) in x.info && t in x.info
    ensures var r := UnlockPostponeAndSchedule(x);
      && t in r.info
      && r.info[t].timeUsed - x.info[t].timeUsed == (if t == Runner(x) then r.lastRead - x.lastRead else 0)
      && r.lastRead == (if r.dispatched != x.dispatched then x.tick else x.lastRead)
  {
  }

  lemma IdleTestCharges(s: State, t: Tcb)
    requires s.cpu.Idle? && s.postpone == 0 && Runner(s) in s.info && t in s.info
    ensures var r := IdleTest(s);
      && t in r.info
      && r.info[t].timeUsed - s.info[t].timeUsed == (if t == Runner(s) then r.lastRead - s.lastRead else 0)
      && r.lastRead == (if r.dispatched != s.dispatched && r.cpu != Thread(Runner(s)) then s.tick else s.lastRead)
  {
  }

  /** The clock is read when the CPU goes to another thread, and at no other time. */
  predicate ReadAtSwitch(s: State, r: State) {
    r.lastRead == if r.dispatched != s.dispatched && r.cpu != Thread(Runner(s)) then r.tick else s.lastRead
  }

  /**
    A thread's time grows by the ticks read if it had the CPU, or owned the idle loop,
    before the step, and not at all otherwise.
   */
  predicate Charged(s: State, r: State, t: Tcb)
    requires t in s.info
  {
    && t in r.info
    && r.info[t].timeUsed - s.info[t].timeUsed == if t == Runner(s) then r.lastRead - s.lastRead else 0
  }

  lemma SectionStepCharges(s: State, e: Event, t: Tcb)
    requires Inv(s) && Enabled(s, e) && IsSection(e) && t in s.info
    ensures Charged(s, Step(s, e), t)
  {
    var x := AtRelease(s, e);
    InvRegistered(s);
    StepShape(s, e);
    SectionTimes(s, e);
    ReleaseCharges(x, t);
  }

  lemma StepCharges(s: State, e: Event, t: Tcb)
    requires Inv(s) && Enabled(s, e) && Safe(s, e) && t in s.info
    ensures Charged(s, Step(s, e), t)
  {
    if IsSection(e) {
      SectionStepCharges(s, e, t);
    } else if e.HltReturns? {
      IdleTestCharges(s, t);
    }
  }

  /** What the steps of a run charge to `t`: the ticks read while it has the CPU or owns the idle loop. */
  function ChargedTo(s: State, es: seq<Event>, t: Tcb): int
    requires Possible(s, es)
    decreases |es|
  {
    if es == [] then 0
    else
      var r := Step(s, es[0]);
      (if t == Runner(s) then r.lastRead - s.lastRead else 0) + ChargedTo(r, es[1..], t)
  }

  /** Over any safe run each thread is charged exactly the ticks read in its own turns. */
  lemma {:induction false} EachPaysItsOwn(s: State, es: seq<Event>, t: Tcb)
    requires Inv(s) && Possible(s, es) && SafeThroughout(s, es) && t in s.info
    ensures var r := Run(s, es);
      t in r.info && r.info[t].timeUsed - s.info[t].timeUsed == ChargedTo(s, es, t)
    decreases |es|
  {
    if es != [] {
      StepCharges(s, es[0], t);
      StepKeeps(s, es[0]);
      EachPaysItsOwn(Step(s, es[0]), es[1..], t);
    }
  }

  /** A release that dispatches gives the CPU to another thread. */
  lemma SectionStepReads(s: State, e: Event)
    requires Inv(s) && Enabled(s, e) && Safe(s, e) && IsSection(e)
    ensures ReadAtSwitch(s, Step(s, e))
  {
    var x := AtRelease(s, e);
    InvRegistered(s);
    StepShape(s, e);
    SectionTimes(s, e);
    SectionQueues(s, e);
    ReleaseCharges(x, s.butler);
    ReleaseKept(x);
    ReleaseMoves(x);
    NotFirst(s, e);
  }

  lemma ReleaseMoves(x: State)
    requires x.postpone == 1 && (x.flag ==> x.cpu.Thread?)
    ensures var r := UnlockPostponeAndSchedule(x);
      r.dispatched != x.dispatched ==> x.flag && x.ready != [] && r.cpu == Thread(x.ready[0])
  {
  }

  /** The thread that makes a request is not the first of the ready queue. */
  lemma NotFirst(s: State, e: Event)
    requires Inv(s) && Enabled(s, e) && Safe(s, e) && IsSection(e)
    ensures var x := AtRelease(s, e); x.flag && x.ready != [] ==> x.ready[0] != Runner(s)
  {
    if s.ready != [] {
      assert s.ready[0] in s.ready;
    } else if e.Tick? && NextWoken(s) < |s.sleeping| {
      assert s.sleeping[NextWoken(s)] in s.sleeping;
    }
  }

  lemma StepReads(s: State, e: Event)
    requires Inv(s) && Enabled(s, e) && Safe(s, e)
    ensures ReadAtSwitch(s, Step(s, e))
  {
    if IsSection(e) {
      SectionStepReads(s, e);
    } else if e.HltReturns? {
      InvRegistered(s);
      IdleTestCharges(s, s.butler);
      IdleTestKept(s);
    }
  }

  /** In every state a safe run reaches each queue leads to known TCBs only. */
  lemma ReachableKnown(kernel: Tcb, es: seq<Event>)
    requires Possible(Init(kernel), es) && SafeThroughout(Init(kernel), es)
    ensures Known(Run(Init(kernel), es))
  {
    InitInv(kernel);
    RunKeeps(Init(kernel), es);
    var r := Run(Init(kernel), es);
    forall m, t | m in r.sems && t in r.sems[m].waiters
      ensures t in r.info
    {
      assert QueueOk(r, r.sems[m].waiters, Paused);
    }
  }
}
