/**
  The kernel functions in place, over global counters, the fields of control blocks and
  semaphores, and the intrusive queues.  `m` is the abstract state: every method does to it
  what the function of the same name in `Scheduler` does, and keeps every queue of `m` a
  chain of its own through the `next` fields.
 */
module Multitask {
  import opened Common
  import opened Threads
  import opened ThreadQueues
  import opened QueueSafety
  import S = Scheduler
  import SI = SchedulerInvariant
  import SR = SchedulerRuns
  import G = SleepGap

  datatype SemaphoreFields = SemaphoreFields(maxCount: int, currentCount: int, first: Option<Tcb>, last: Option<Tcb>)

  /** The waiters are chained from `first` to `last`; `last` is left over when there are none. */
  predicate SemaphoreHolds(f: SemaphoreFields, sem: S.Sem) {
    && f.maxCount == sem.maxCount && f.currentCount == sem.count
    && f.first == At(sem.waiters, 0)
    && (sem.waiters != [] ==> f.last == Some(sem.waiters[|sem.waiters| - 1]))
  }

  predicate SemaphoresHold(fields: map<Semaphore, SemaphoreFields>, sems: map<Semaphore, S.Sem>) {
    && fields.Keys == sems.Keys
    && forall s {:trigger sems[s]} {:trigger fields[s]} :: s in sems ==> SemaphoreHolds(fields[s], sems[s])
  }

  /** If the thread on the CPU will be queued again by a switch, it is in no queue. */
  predicate Requeues(m: S.State) {
    m.ready != [] && m.cpu.Thread? && S.StatusOf(m, m.cpu.tcb) == Running ==> InNoQueue(m, m.cpu.tcb)
  }

  function Popped(m: S.State): S.State
    requires m.ready != []
  {
    m.(ready := m.ready[1..], dispatched := m.dispatched + [m.ready[0]])
  }

  function WithSem(m: S.State, s: Semaphore, count: int, q: seq<Tcb>): S.State
    requires s in m.sems
  {
    m.(sems := m.sems[s := m.sems[s].(count := count, waiters := q)])
  }

  lemma EnqueueKeeps(m: S.State, tags: map<Tcb, Tag>, next: map<Tcb, Option<Tcb>>, s: Semaphore, t: Tcb)
    requires Chained(m, tags, next) && s in m.sems && t in m.info && InNoQueue(m, t)
    ensures var q := m.sems[s].waiters;
      && Chained(WithSem(m, s, m.sems[s].count, q + [t]), tags[t := On(Waiters(s))], Pushed(next, q, t))
      && (q != [] ==> q[|q| - 1] in next)
  {
    var q := m.sems[s].waiters;
    OffIsNowhere(m, tags, next, t);
    assert Slotted(m, tags, next, Waiters(s));
    PushKeeps(m, WithSem(m, s, m.sems[s].count, q + [t]), tags, next, Waiters(s), t);
    assert q != [] ==> LinkedAt(next, q, |q| - 1);
  }

  lemma DequeueKeeps(m: S.State, tags: map<Tcb, Tag>, next: map<Tcb, Option<Tcb>>, s: Semaphore, count: int)
    requires Chained(m, tags, next) && s in m.sems && m.sems[s].waiters != []
    ensures var t, r := m.sems[s].waiters[0], WithSem(m, s, count, m.sems[s].waiters[1..]);
      && Chained(r, tags[t := Off], next) && InNoQueue(r, t)
      && t in m.info && t in next && next[t] == At(m.sems[s].waiters, 1)
  {
    var q, t, r := m.sems[s].waiters, m.sems[s].waiters[0], WithSem(m, s, count, m.sems[s].waiters[1..]);
    assert Slotted(m, tags, next, Waiters(s)) && LinkedAt(next, q, 0);
    assert Without(q, 0) == q[1..] && t in q;
    RemoveKeeps(m, r, tags, next, Waiters(s), 0);
    OffIsNowhere(r, tags[t := Off], next, t);
  }

  /** The fields of a semaphore after `t` was put at the end of its waiters. */
  function Enqueued(f: SemaphoreFields, t: Tcb): SemaphoreFields {
    f.(first := if f.first == None then Some(t) else f.first, last := Some(t))
  }

  lemma EnqueuedHolds(fields: map<Semaphore, SemaphoreFields>, m: S.State, s: Semaphore, t: Tcb)
    requires SemaphoresHold(fields, m.sems) && s in m.sems
    ensures SemaphoresHold(fields[s := Enqueued(fields[s], t)],
                           WithSem(m, s, m.sems[s].count, m.sems[s].waiters + [t]).sems)
  {
  }

  function WithNew(m: S.State, t: Tcb): S.State {
    m.(info := m.info[t := S.Info(Running, 0, 0)], created := m.created + [t])
  }

  lemma NewIsFree(m: S.State, tags: map<Tcb, Tag>, next: map<Tcb, Option<Tcb>>, t: Tcb)
    requires Chained(m, tags, next) && t !in m.info
    ensures Chained(WithNew(m, t), tags[t := Off], next[t := None]) && InNoQueue(WithNew(m, t), t)
  {
    AdmitKeeps(m, WithNew(m, t), tags, next, t);
    OffIsNowhere(WithNew(m, t), tags[t := Off], next[t := None], t);
  }

  /** If a tick switches, the thread it interrupts is in no queue. */
  predicate TickSwitchesFree(m: S.State)
    requires S.Enabled(m, S.Tick)
  {
    var x := S.PitBody(S.LockPostpone(m));
    x.flag ==> Requeues(x)
  }

  lemma TickFree(m: S.State)
    requires SI.Inv(m)
    ensures TickSwitchesFree(m)
  {
    SI.PitShape(m);
    if m.cpu.Thread? {
      CpuFree(m);
      TickedFree(m);
    }
  }

  lemma TickedFree(m: S.State)
    requires SI.Inv(m) && m.cpu.Thread? && InNoQueue(m, m.cpu.tcb)
    ensures Requeues(SI.Ticked(m))
  {
    var i := SI.NextWoken(m);
    assert i < |m.sleeping| ==> m.sleeping[i] in m.sleeping;
  }

  lemma GapTickFree(m: S.State, c: Tcb)
    requires G.InGap(m, c) && G.Harmless(m, S.Tick)
    ensures TickSwitchesFree(m)
  {
    SI.PitShape(m);
  }

  class Kernel {
    var irqDisableCounter: int
    var postponeTaskSwitchesCounter: int
    var taskSwitchesPostponedFlag: bool
    var current: Option<Tcb>
    /** The local of `schedule` that remembers who went idle. */
    var task: Option<Tcb>
    var butler: Tcb
    /** The control blocks: their links, and their other fields. */
    const mem: Links
    var threads: map<Tcb, S.Info>
    const threadsReady: ThreadList
    const threadsSleeping: ThreadList
    const threadsTerminated: ThreadList
    var semaphores: map<Semaphore, SemaphoreFields>
    var timerTick: int
    var lastReadTick: int
    var idleCpuTime: int
    ghost var m: S.State
    /** The queue each thread is in. */
    ghost var tags: map<Tcb, Tag>

    /** The part of the state that is held in globals and in the fields of control blocks. */
    ghost function Globals(): S.State
      reads this
    {
      m.(irq := irqDisableCounter, postpone := postponeTaskSwitchesCounter, flag := taskSwitchesPostponedFlag,
         tick := timerTick, lastRead := lastReadTick, idleTime := idleCpuTime, butler := butler, info := threads)
    }

    ghost predicate CpuHolds()
      reads this
    {
      match m.cpu
      case Thread(t) => current == Some(t) && t in m.info
      case Idle(owner) => current == None && task == Some(owner) && owner in m.info
    }

    ghost predicate ListsHold()
      reads this, threadsReady, threadsSleeping, threadsTerminated
    {
      && threadsReady != threadsSleeping && threadsReady != threadsTerminated && threadsSleeping != threadsTerminated
      && threadsReady.Holds(m.ready) && threadsReady.size == |m.ready|
      && threadsSleeping.Heads(m.sleeping) && threadsSleeping.size == m.sleepSize >= |m.sleeping|
      && threadsTerminated.Holds(m.terminated) && threadsTerminated.size == |m.terminated|
    }

    ghost predicate Coupled()
      reads this, mem, threadsReady, threadsSleeping, threadsTerminated
    {
      && m == Globals() && CpuHolds() && ListsHold() && SemaphoresHold(semaphores, m.sems)
      && Chained(m, tags, mem.next)
    }

    constructor (kernel: Tcb)
      ensures Coupled() && m == S.Init(kernel)
    {
      irqDisableCounter, postponeTaskSwitchesCounter, taskSwitchesPostponedFlag := 0, 0, false;
      current, task, butler := Some(kernel), None, kernel;
      threads, semaphores := map[kernel := S.Info(Running, 0, 0)], map[];
      timerTick, lastReadTick, idleCpuTime := 0, 0, 0;
      mem := new Links();
      threadsReady := new ThreadList();
      threadsSleeping := new ThreadList();
      threadsTerminated := new ThreadList();
      m, tags := S.Init(kernel), map[kernel := Off];
      new;
      mem.next := map[kernel := None];
      forall k ensures Slotted(m, tags, mem.next, k) {
        assert QueueOf(m, k) == [];
      }
    }

    // -------------------------------------------------------------- queues

    /** For a thread that is queued already `QueuedPushCuts` says what these links are. */
    method PushReady(t: Tcb)
      requires Coupled() && t in m.info
      modifies `m, `tags, mem, threadsReady
      ensures mem.next == Pushed(old(mem.next), old(m).ready, t)
      ensures threadsReady.size == |old(m).ready| + 1 && threadsReady.head == At(old(m).ready + [t], 0)
      ensures InNoQueue(old(m), t) ==> Coupled() && m == old(m).(ready := old(m).ready + [t]) && mem.next[t] == None
    {
      ghost var r := m.(ready := m.ready + [t]);
      OffIsNowhere(m, tags, mem.next, t);
      assert Slotted(m, tags, mem.next, Ready) && (m.ready != [] ==> m.ready[|m.ready| - 1] in m.ready);
      if InNoQueue(m, t) {
        PushKeeps(m, r, tags, mem.next, Ready, t);
      }
      threadsReady.PushBack(mem, t, m.ready);
      if InNoQueue(m, t) {
        m, tags := r, tags[t := On(Ready)];
      }
    }

    method PopReady() returns (t: Option<Tcb>)
      requires Coupled()
      modifies `m, `tags, threadsReady
      ensures Coupled() && t == At(old(m).ready, 0)
      ensures t == None ==> m == old(m)
      ensures t.Some? ==> t.value in m.info && m == Popped(old(m))
    {
      assert Slotted(m, tags, mem.next, Ready);
      if m.ready != [] {
        PopKeeps(m, Popped(m), tags, mem.next, Ready);
      }
      t := threadsReady.PopFront(mem, m.ready);
      if t.Some? {
        m, tags := Popped(m), tags[t.value := Off];
      }
    }

    // -------------------------------------------------------------- switching

    method LockPostpone()
      requires Coupled()
      modifies this
      ensures Coupled() && m == S.LockPostpone(old(m))
    {
      irqDisableCounter := irqDisableCounter + 1;
      postponeTaskSwitchesCounter := postponeTaskSwitchesCounter + 1;
      Restate(S.LockPostpone(m));
    }

    /** The abstract state follows a change that leaves the queues alone. */
    ghost method Restate(r: S.State)
      requires Chained(m, tags, mem.next) && r.info.Keys == m.info.Keys
      requires r.ready == m.ready && r.sleeping == m.sleeping && r.terminated == m.terminated && r.sems == m.sems
      modifies `m
      ensures m == r && Chained(m, tags, mem.next)
    {
      RestatedChained(m, r, tags, mem.next);
      m := r;
    }

    method UpdateTimeUsed()
      requires Coupled()
      modifies this
      ensures Coupled() && m == S.UpdateTimeUsed(old(m))
    {
      var c := lastReadTick;
      lastReadTick := timerTick;
      Restate(m.(lastRead := m.tick));
      if current == None {
        idleCpuTime := idleCpuTime + (lastReadTick - c);
        Restate(m.(idleTime := m.idleTime + (m.tick - c)));
      } else {
        Charge(current.value, lastReadTick - c);
      }
    }

    method Charge(t: Tcb, delta: int)
      requires Coupled() && t in m.info
      modifies this
      ensures Coupled()
      ensures m == old(m).(info := old(m).info[t := S.InfoOf(old(m), t).(timeUsed := S.InfoOf(old(m), t).timeUsed + delta)])
    {
      threads := threads[t := threads[t].(timeUsed := threads[t].timeUsed + delta)];
      Restate(m.(info := threads));
    }

    method SwitchToThread(next: Tcb)
      requires Coupled() && next in m.info
      modifies this
      ensures Coupled() && m == S.SwitchToThread(old(m), next)
    {
      if postponeTaskSwitchesCounter != 0 {
        postponeTaskSwitchesCounter := 1;
        Restate(S.SwitchToThread(m, next));
        return;
      }
      UpdateTimeUsed();
      current := Some(next);
      Restate(m.(cpu := S.Thread(next)));
    }

    method LowerIrq()
      modifies `irqDisableCounter, `m
      ensures old(Coupled()) ==> Coupled() && m == old(m).(irq := old(m).irq - 1)
    {
      ghost var coupled := Coupled();
      irqDisableCounter := irqDisableCounter - 1;
      if coupled {
        Restate(m.(irq := m.irq - 1));
      }
    }

    method LowerPostpone()
      modifies `postponeTaskSwitchesCounter, `m
      ensures postponeTaskSwitchesCounter == old(postponeTaskSwitchesCounter) - 1
      ensures old(Coupled()) ==> Coupled() && m == old(m).(postpone := old(m).postpone - 1)
    {
      ghost var coupled := Coupled();
      postponeTaskSwitchesCounter := postponeTaskSwitchesCounter - 1;
      if coupled {
        Restate(m.(postpone := m.postpone - 1));
      }
    }

    /** A thread switched away from while it is running goes back to the ready list. */
    method Requeue()
      requires Coupled() && current.Some?
      requires S.StatusOf(m, current.value) == Running ==> InNoQueue(m, current.value)
      modifies `m, `tags, mem, threadsReady
      ensures Coupled()
      ensures var c := current.value;
        m == if S.StatusOf(old(m), c) == Running then old(m).(ready := old(m).ready + [c]) else old(m)
    {
      if threads[current.value].status == Running {
        PushReady(current.value);
      }
    }

    method SwitchFromCurrent(next: Tcb)
      requires Coupled() && current.Some? && next in m.info
      requires S.StatusOf(m, current.value) == Running ==> InNoQueue(m, current.value)
      modifies this, mem, threadsReady
      ensures Coupled()
      ensures var c := old(m).cpu.tcb;
        m == S.SwitchToThread(if S.StatusOf(old(m), c) == Running then old(m).(ready := old(m).ready + [c]) else old(m), next)
    {
      Requeue();
      SwitchToThread(next);
    }

    /** Returns with no current thread when it has to wait in the idle loop. */
    method Schedule()
      requires Coupled() && (current.Some? || postponeTaskSwitchesCounter != 0)
      requires postponeTaskSwitchesCounter == 0 ==> Requeues(m)
      modifies this, mem, threadsReady
      ensures Coupled() && m == S.Schedule(old(m))
      ensures old(postponeTaskSwitchesCounter) != 0 ==> mem.next == old(mem.next)
    {
      if postponeTaskSwitchesCounter != 0 {
        taskSwitchesPostponedFlag := true;
        Restate(m.(flag := true));
        return;
      }
      var next := PopReady();
      if next != None {
        SwitchFromCurrent(next.value);
      } else if threads[current.value].status != Running {
        task := current;
        current := None;
        Restate(m.(cpu := S.Idle(task.value)));
      }
    }

    /** A release that finds no request, or an inner one, writes no link, in whatever state the queues are. */
    method UnlockPostponeAndSchedule()
      requires Coupled() || postponeTaskSwitchesCounter != 1 || !taskSwitchesPostponedFlag
      requires current.Some? || postponeTaskSwitchesCounter != 1 || !taskSwitchesPostponedFlag
      requires postponeTaskSwitchesCounter == 1 && taskSwitchesPostponedFlag ==> Requeues(m)
      modifies this, mem, threadsReady
      ensures old(Coupled()) ==> Coupled() && m == S.UnlockPostponeAndSchedule(old(m))
      ensures old(postponeTaskSwitchesCounter != 1 || !taskSwitchesPostponedFlag) ==> mem.next == old(mem.next)
    {
      LowerPostpone();
      if postponeTaskSwitchesCounter == 0 && taskSwitchesPostponedFlag {
        ScheduleNow();
        if current == None {
          return;
        }
      }
      LowerIrq();
    }

    /** The request is taken back, and granted. */
    method ScheduleNow()
      requires Coupled() && current.Some? && postponeTaskSwitchesCounter == 0 && Requeues(m)
      modifies this, mem, threadsReady
      ensures Coupled() && m == S.Schedule(old(m).(flag := false))
      ensures current == None <==> m.cpu.Idle?
    {
      taskSwitchesPostponedFlag := false;
      Restate(m.(flag := false));
      Schedule();
    }

    /** The test of the idle loop after `hlt`, and the rest of `schedule` and its caller. */
    method IdleTest()
      requires Coupled() && current == None
      modifies this, mem, threadsReady
      ensures Coupled() && m == S.IdleTest(old(m))
    {
      var next := PopReady();
      if next == None {
        return;
      }
      LeaveIdle(next.value);
      LowerIrq();
    }

    method LeaveIdle(next: Tcb)
      requires Coupled() && current == None && next in m.info
      modifies this
      ensures Coupled()
      ensures var back := old(m).(cpu := S.Thread(old(m).cpu.owner));
        m == if next != old(m).cpu.owner then S.SwitchToThread(back, next) else back
    {
      current := task;
      Restate(m.(cpu := S.Thread(task.value)));
      if Some(next) != current {
        SwitchToThread(next);
      }
    }

    /** `reason` is a state to block in. */
    method BlockTask(reason: Status)
      requires Coupled() && current.Some? && reason != Running
      modifies this, mem, threadsReady
      ensures Coupled() && m == S.BlockTask(old(m), reason)
      ensures old(m).postpone > 0 ==> mem.next == old(mem.next)
    {
      LockPostpone();
      threads := threads[current.value := threads[current.value].(status := reason)];
      Restate(S.SetStatus(m, current.value, reason));
      Schedule();
      UnlockPostponeAndSchedule();
    }

    /** Called inside a section, or with no switch requested, for any thread: see `PushReady`. */
    method UnblockTask(t: Tcb)
      requires Coupled() && t in m.info
      requires (m.postpone > 0 || !m.flag) && (current.Some? || !m.flag)
      modifies this, mem, threadsReady
      ensures mem.next == Pushed(old(mem.next), old(m).ready, t)
      ensures InNoQueue(old(m), t) ==> Coupled() && m == S.UnblockTask(old(m), t)
    {
      LockPostpone();
      MakeReady(t);
      UnlockPostponeAndSchedule();
    }

    method MakeReady(t: Tcb)
      requires Coupled() && t in m.info
      modifies `threads, `m, `tags, mem, threadsReady
      ensures mem.next == Pushed(old(mem.next), old(m).ready, t)
      ensures InNoQueue(old(m), t) ==>
        Coupled() && m == S.SetStatus(old(m).(ready := old(m).ready + [t]), t, Running)
    {
      ghost var free := InNoQueue(m, t);
      PushReady(t);
      threads := threads[t := threads[t].(status := Running)];
      if free {
        Restate(S.SetStatus(m, t, Running));
      }
    }

    // -------------------------------------------------------------- semaphores

    /** `semaphore` is what the allocation gave: a new address or null. */
    method CreateSemaphore(semaphore: Option<Semaphore>, max: int) returns (s: Option<Semaphore>)
      requires Coupled() && (semaphore.Some? ==> semaphore.value !in m.sems)
      modifies this
      ensures Coupled() && s == semaphore
      ensures m == if s.Some? then S.CreateSemaphore(old(m), s.value, max) else old(m)
    {
      s := semaphore;
      if s == None {
        return;
      }
      semaphores := semaphores[s.value := SemaphoreFields(max, 0, None, None)];
      RestateSems(S.CreateSemaphore(m, s.value, max));
    }

    /** The abstract state follows a change of counts. */
    ghost method RestateSems(r: S.State)
      requires Chained(m, tags, mem.next) && r == m.(sems := r.sems)
      requires forall s {:trigger S.SemOf(r, s)} :: S.SemOf(r, s).waiters == S.SemOf(m, s).waiters
      modifies `m
      ensures m == r && Chained(m, tags, mem.next)
    {
      RestatedChained(m, r, tags, mem.next);
      m := r;
    }

    method SetCount(s: Semaphore, count: int)
      requires Coupled() && s in m.sems
      modifies this
      ensures Coupled() && m == old(m).(sems := old(m).sems[s := old(m).sems[s].(count := count)])
    {
      semaphores := semaphores[s := semaphores[s].(currentCount := count)];
      RestateSems(m.(sems := m.sems[s := m.sems[s].(count := count)]));
    }

    /** A thread that is in no queue becomes the last waiter. */
    method Enqueue(s: Semaphore, t: Tcb)
      requires Coupled() && s in m.sems && t in m.info && InNoQueue(m, t)
      modifies this, mem
      ensures Coupled()
      ensures m == WithSem(old(m), s, old(m).sems[s].count, old(m).sems[s].waiters + [t])
    {
      EnqueueKeeps(m, tags, mem.next, s, t);
      EnqueuedHolds(semaphores, m, s, t);
      var f := semaphores[s];
      if f.first == None {
        f := f.(first := Some(t));
        mem.next := mem.next[t := None];
      } else {
        mem.next := mem.next[t := None][f.last.value := Some(t)];
      }
      semaphores := semaphores[s := f.(last := Some(t))];
      m, tags := WithSem(m, s, m.sems[s].count, m.sems[s].waiters + [t]), tags[t := On(Waiters(s))];
    }

    /** The longest waiter leaves, and the count is set; `last` is left over if there was no other. */
    method Dequeue(s: Semaphore, count: int) returns (t: Tcb)
      requires Coupled() && s in m.sems && m.sems[s].waiters != []
      modifies this
      ensures Coupled() && t == old(m).sems[s].waiters[0] && t in m.info && InNoQueue(m, t)
      ensures m == WithSem(old(m), s, count, old(m).sems[s].waiters[1..])
    {
      DequeueKeeps(m, tags, mem.next, s, count);
      t := semaphores[s].first.value;
      semaphores := semaphores[s := semaphores[s].(first := mem.next[t], currentCount := count)];
      m, tags := WithSem(m, s, count, m.sems[s].waiters[1..]), tags[t := Off];
    }

    /** The current thread joins the waiters and blocks. */
    method BlockOn(s: Semaphore)
      requires Coupled() && current.Some? && s in m.sems && InNoQueue(m, current.value)
      modifies this, mem, threadsReady
      ensures Coupled() && m == S.BlockOn(old(m), s)
    {
      Enqueue(s, current.value);
      BlockTask(Paused);
    }

    method WaitBody(s: Semaphore)
      requires Coupled() && s in m.sems && m.cpu.Thread? && m.postpone > 0 && InNoQueue(m, m.cpu.tcb)
      modifies this, mem, threadsReady
      ensures Coupled() && m == S.WaitBody(old(m), s)
    {
      SetCount(s, semaphores[s].currentCount - 1);
      if semaphores[s].currentCount < semaphores[s].maxCount {
        BlockOn(s);
      }
    }

    method WaitSemaphore(s: Semaphore)
      requires Coupled() && SI.Inv(m) && S.Enabled(m, S.Wait(s))
      modifies this, mem, threadsReady
      ensures Coupled() && m == S.WaitSemaphore(old(m), s)
    {
      CpuFree(m);
      LockPostpone();
      WaitBody(s);
      UnlockPostponeAndSchedule();
    }

    method LockBody(s: Semaphore)
      requires Coupled() && s in m.sems && m.cpu.Thread? && m.postpone > 0 && InNoQueue(m, m.cpu.tcb)
      modifies this, mem, threadsReady
      ensures Coupled() && m == S.LockBody(old(m), s)
    {
      if semaphores[s].currentCount >= semaphores[s].maxCount {
        BlockOn(s);
      } else {
        SetCount(s, semaphores[s].currentCount + 1);
      }
    }

    method LockSemaphore(s: Semaphore)
      requires Coupled() && SI.Inv(m) && S.Enabled(m, S.Lock(s))
      modifies this, mem, threadsReady
      ensures Coupled() && m == S.LockSemaphore(old(m), s)
    {
      CpuFree(m);
      LockPostpone();
      LockBody(s);
      UnlockPostponeAndSchedule();
    }

    /** The first waiter leaves the queue, with the count set as the caller says, and is unblocked. */
    method WakeWaiter(s: Semaphore, count: int)
      requires Coupled() && s in m.sems && m.sems[s].waiters != [] && m.postpone > 0 && !m.flag
      modifies this, mem, threadsReady
      ensures Coupled() && m == S.WakeWaiter(old(m), s, count)
    {
      var t := Dequeue(s, count);
      UnblockTask(t);
    }

    method PostBody(s: Semaphore)
      requires Coupled() && s in m.sems && m.postpone > 0 && !m.flag
      modifies this, mem, threadsReady
      ensures Coupled() && m == S.PostBody(old(m), s)
    {
      if semaphores[s].first.Some? {
        WakeWaiter(s, semaphores[s].currentCount + 1);
      }
    }

    method PostSemaphore(s: Semaphore)
      requires Coupled() && S.Enabled(m, S.Key(s))
      modifies this, mem, threadsReady
      ensures Coupled() && m == S.PostSemaphore(old(m), s)
    {
      LockPostpone();
      PostBody(s);
      UnlockPostponeAndSchedule();
    }

    method UnlockBody(s: Semaphore)
      requires Coupled() && s in m.sems && m.postpone > 0 && !m.flag
      modifies this, mem, threadsReady
      ensures Coupled() && m == S.UnlockBody(old(m), s)
    {
      if semaphores[s].first.Some? {
        WakeWaiter(s, semaphores[s].currentCount);
      } else {
        SetCount(s, semaphores[s].currentCount - 1);
      }
    }

    method UnlockSemaphore(s: Semaphore)
      requires Coupled() && S.Enabled(m, S.Key(s))
      modifies this, mem, threadsReady
      ensures Coupled() && m == S.UnlockSemaphore(old(m), s)
    {
      LockPostpone();
      UnlockBody(s);
      UnlockPostponeAndSchedule();
    }

    // -------------------------------------------------------------- time

    method PushSleeping(t: Tcb)
      requires Coupled() && t in m.info && InNoQueue(m, t) && (m.sleeping == [] ==> m.sleepSize == 0)
      modifies `m, `tags, mem, threadsSleeping
      ensures Coupled() && m == old(m).(sleeping := old(m).sleeping + [t], sleepSize := old(m).sleepSize + 1)
    {
      ghost var r := m.(sleeping := m.sleeping + [t], sleepSize := m.sleepSize + 1);
      OffIsNowhere(m, tags, mem.next, t);
      assert Slotted(m, tags, mem.next, Asleep);
      PushKeeps(m, r, tags, mem.next, Asleep, t);
      threadsSleeping.PushBack(mem, t, m.sleeping);
      m, tags := r, tags[t := On(Asleep)];
    }

    /** `list_thread_remove` on the sleep queue; the only sleeper under a larger `size` leaves it stale. */
    method RemoveSleeper(t: Tcb, ghost i: nat)
      requires Coupled() && i < |m.sleeping| && t == m.sleeping[i]
      modifies `m, `tags, mem, threadsSleeping
      ensures Coupled() && m == S.RemoveSleeper(old(m), i) && t in m.info && InNoQueue(m, t)
      ensures |old(m).sleeping| == 1 && old(m).sleepSize > 1 ==>
        threadsSleeping.Stale() && threadsSleeping.tail == Some(t)
    {
      ghost var r := S.RemoveSleeper(m, i);
      assert Slotted(m, tags, mem.next, Asleep) && t in m.sleeping;
      RemoveKeeps(m, r, tags, mem.next, Asleep, i);
      var _ := threadsSleeping.Remove(mem, t, i, m.sleeping);
      m, tags := r, tags[t := Off];
      OffIsNowhere(m, tags, mem.next, t);
    }

    /** The sleeper becomes ready; its link is null then, because it is the last. */
    method WakeAt(t: Tcb, ghost i: nat)
      requires Coupled() && m.postpone > 0 && !m.flag
      requires i < |m.sleeping| && t == m.sleeping[i]
      modifies this, mem, threadsReady, threadsSleeping
      ensures Coupled() && m == S.UnblockTask(S.RemoveSleeper(old(m), i), t)
      ensures t in mem.next && mem.next[t] == None
    {
      RemoveSleeper(t, i);
      UnblockTask(t);
      assert Slotted(m, tags, mem.next, Ready) && LinkedAt(mem.next, m.ready, |m.ready| - 1);
    }

    /**
      The walk over the sleep list.  Unblocking puts the thread at the end of the ready list,
      which clears the link the walk goes on with, so it wakes one thread at most.
     */
    method WakeSleeper()
      requires Coupled() && m.postpone > 0 && !m.flag
      modifies this, mem, threadsReady, threadsSleeping
      ensures Coupled() && m == S.WakeSleeper(old(m)) && m.postpone == old(m).postpone
    {
      ghost var m0, i, woken := m, 0, false;
      if threadsSleeping.size > 0 {
        var ptr := threadsSleeping.head;
        while ptr.Some?
          invariant Coupled()
          invariant !woken ==> m == m0 && i <= |m.sleeping| && ptr == At(m.sleeping, i)
          invariant !woken ==> S.FirstExpired(m0, 0) == S.FirstExpired(m0, i)
          invariant woken ==> ptr == None && m == S.WakeSleeper(m0)
          decreases |m0.sleeping| - i
        {
          var t := ptr.value;
          assert Slotted(m, tags, mem.next, Asleep) && LinkedAt(mem.next, m.sleeping, i) && t in m.sleeping;
          if threads[t].pausedUntil <= timerTick {
            WakeAt(t, i);
            woken := true;
          }
          ptr, i := mem.next[t], i + 1;
        }
      }
    }

    method PitBody()
      requires Coupled() && m.postpone > 0 && !m.flag
      modifies this, mem, threadsReady, threadsSleeping
      ensures Coupled() && m == S.PitBody(old(m))
    {
      AdvanceTimer();
      WakeSleeper();
      AskSchedule();
    }

    method AdvanceTimer()
      requires Coupled()
      modifies `timerTick, `m
      ensures Coupled() && m == old(m).(tick := old(m).tick + 1)
    {
      timerTick := timerTick + 1;
      Restate(m.(tick := m.tick + 1));
    }

    method AskSchedule()
      requires Coupled() && m.postpone > 0
      modifies this, mem, threadsReady
      ensures Coupled() && m == if old(m).cpu.Thread? && old(m).tick % 3 == 0 then S.Schedule(old(m)) else old(m)
    {
      if current.Some? && timerTick % 3 == 0 {
        Schedule();
      }
    }

    method PitInterrupt()
      requires Coupled() && S.Enabled(m, S.Tick) && TickSwitchesFree(m)
      modifies this, mem, threadsReady, threadsSleeping
      ensures Coupled() && m == S.PitInterrupt(old(m))
    {
      LockPostpone();
      PitBody();
      UnlockPostponeAndSchedule();
    }

    /** The section of `mili_sleep_until`; tells whether the thread was queued. */
    method QueueSleeper(until: int) returns (queued: bool)
      requires Coupled() && SI.Inv(m) && S.Enabled(m, S.SleepUntil(until))
      modifies this, mem, threadsReady, threadsSleeping
      ensures Coupled() && m == S.QueueSleeper(old(m), until)
      ensures queued <==> until >= old(m).tick
    {
      CpuFree(m);
      LockPostpone();
      queued := until >= timerTick;
      if queued {
        QueueSleeperBody(until);
      }
      UnlockPostponeAndSchedule();
    }

    method QueueSleeperBody(until: int)
      requires Coupled() && current.Some? && until >= m.tick && InNoQueue(m, current.value)
      requires m.sleeping == [] ==> m.sleepSize == 0
      modifies this, mem, threadsSleeping
      ensures Coupled() && m == S.QueueSleeperBody(old(m), until)
    {
      SetPausedUntil(until);
      PushSleeping(current.value);
    }

    method SetPausedUntil(until: int)
      requires Coupled() && current.Some?
      modifies this
      ensures Coupled()
      ensures var t := old(m).cpu.tcb;
        m == old(m).(info := old(m).info[t := S.InfoOf(old(m), t).(pausedUntil := until)])
    {
      var t := current.value;
      threads := threads[t := threads[t].(pausedUntil := until)];
      Restate(m.(info := m.info[t := S.InfoOf(m, t).(pausedUntil := until)]));
    }

    /** With no interrupt between the section and `block_task`. */
    method MiliSleepUntil(until: int)
      requires Coupled() && SI.Inv(m) && S.Enabled(m, S.SleepUntil(until))
      modifies this, mem, threadsReady, threadsSleeping
      ensures Coupled() && m == S.MiliSleepUntil(old(m), until)
    {
      var queued := QueueSleeper(until);
      if queued {
        BlockTask(Sleeping);
      }
    }

    /** The whole call with the interrupts `es` between its section and `block_task`, all of them harmless. */
    method MiliSleepInterrupted(until: int, es: seq<S.Event>)
      requires Coupled() && SI.Inv(m) && S.Enabled(m, S.SleepUntil(until)) && until >= m.tick
      requires G.OnlyHarmless(S.QueueSleeper(m, until), es)
      modifies this, mem, threadsReady, threadsSleeping
      ensures Coupled() && SI.Inv(m)
      ensures var g := S.Run(S.QueueSleeper(old(m), until), es); g.cpu.Thread? && m == S.BlockTask(g, Sleeping)
    {
      ghost var c := m.cpu.tcb;
      G.GapIsReached(m, until);
      var _ := QueueSleeper(until);
      Interrupts(c, es);
      G.SleepsWell(m, c);
      BlockTask(Sleeping);
    }

    method Interrupts(ghost c: Tcb, es: seq<S.Event>)
      requires Coupled() && G.InGap(m, c) && G.OnlyHarmless(m, es)
      modifies this, mem, threadsReady, threadsSleeping
      ensures Coupled() && G.InGap(m, c) && m == S.Run(old(m), es)
    {
      ghost var m0 := m;
      var i := 0;
      while i < |es|
        invariant 0 <= i <= |es| && Coupled() && G.InGap(m, c)
        invariant S.Possible(m, es[i..]) && G.HarmlessThroughout(m, es[i..]) && S.Run(m, es[i..]) == S.Run(m0, es)
      {
        assert es[i..][0] == es[i] && es[i..][1..] == es[i + 1..] && es[i] in es;
        InterruptInGap(c, es[i]);
        i := i + 1;
      }
    }

    method InterruptInGap(ghost c: Tcb, e: S.Event)
      requires Coupled() && G.InGap(m, c) && S.Enabled(m, e) && G.IsInterrupt(e) && G.Harmless(m, e)
      modifies this, mem, threadsReady, threadsSleeping
      ensures Coupled() && G.InGap(m, c) && m == S.Step(old(m), e)
    {
      G.GapStep(m, c, e);
      match e {
        case Tick => GapTickFree(m, c); PitInterrupt();
        case Key(s) => PostSemaphore(s);
      }
    }

    // -------------------------------------------------------------- birth and death

    method PushTerminated(t: Tcb)
      requires Coupled() && t in m.info && InNoQueue(m, t)
      modifies `m, `tags, mem, threadsTerminated
      ensures Coupled() && m == old(m).(terminated := old(m).terminated + [t])
      ensures mem.next == Pushed(old(mem.next), old(m).terminated, t)
    {
      ghost var r := m.(terminated := m.terminated + [t]);
      OffIsNowhere(m, tags, mem.next, t);
      assert Slotted(m, tags, mem.next, Dead);
      PushKeeps(m, r, tags, mem.next, Dead, t);
      threadsTerminated.PushBack(mem, t, m.terminated);
      m, tags := r, tags[t := On(Dead)];
    }

    method PopTerminated() returns (t: Option<Tcb>)
      requires Coupled() && m.terminated != []
      modifies `m, `tags, threadsTerminated
      ensures Coupled() && t == Some(old(m).terminated[0])
      ensures m == old(m).(terminated := old(m).terminated[1..], freed := old(m).freed + {old(m).terminated[0]})
    {
      ghost var d := m.terminated[0];
      ghost var r := m.(terminated := m.terminated[1..], freed := m.freed + {d});
      assert Slotted(m, tags, mem.next, Dead);
      PopKeeps(m, r, tags, mem.next, Dead);
      t := threadsTerminated.PopFront(mem, m.terminated);
      m, tags := r, tags[d := Off];
    }

    method QueueDying()
      requires Coupled() && m.cpu.Thread? && m.postpone > 0 && InNoQueue(m, m.cpu.tcb)
      modifies this, mem, threadsReady, threadsTerminated
      ensures Coupled()
      ensures m == S.BlockTask(old(m).(terminated := old(m).terminated + [old(m).cpu.tcb]), Terminated)
      ensures mem.next == Pushed(old(mem.next), old(m).terminated, old(m).cpu.tcb) && m.ready == old(m).ready
      ensures m.butler == old(m).butler && m.info.Keys == old(m).info.Keys && m.postpone > 0 && current.Some?
      ensures m.butler != old(m).cpu.tcb && InNoQueue(old(m), m.butler) ==> InNoQueue(m, m.butler)
    {
      PushTerminated(current.value);
      BlockTask(Terminated);
    }

    /** The section of `terminate_task`, wherever the butler is; `TerminateCuts` says what these links are. */
    method TerminateBody()
      requires Coupled() && m.cpu.Thread? && m.postpone > 0 && InNoQueue(m, m.cpu.tcb)
      requires m.butler in m.info && m.butler != m.cpu.tcb
      modifies this, mem, threadsReady, threadsTerminated
      ensures mem.next == AfterTerminate(old(m), old(mem.next))
      ensures InNoQueue(old(m), old(m).butler) ==> Coupled() && m == S.TerminateBody(old(m))
    {
      QueueDying();
      UnblockTask(butler);
    }

    /** With the butler parked; `TerminateBody` says what happens to the links otherwise. */
    method TerminateTask()
      requires Coupled() && SI.Inv(m) && S.Enabled(m, S.Terminate) && SI.ButlerParked(m)
      modifies this, mem, threadsReady, threadsTerminated
      ensures Coupled() && m == S.TerminateTask(old(m))
    {
      CpuFree(m);
      SafeTerminate(m);
      LockPostpone();
      TerminateBody();
      UnlockPostponeAndSchedule();
    }

    /** One turn of `butler_mr_cleaner`; `work` is the control block to free, if any. */
    method ButlerTurn() returns (work: Option<Tcb>)
      requires Coupled() && SI.Inv(m) && S.Enabled(m, S.Butler)
      modifies this, mem, threadsReady, threadsTerminated
      ensures Coupled() && m == S.ButlerTurn(old(m)) && work == At(old(m).terminated, 0)
    {
      LockPostpone();
      if threadsTerminated.head == None {
        work := None;
        BlockTask(Paused);
      } else {
        work := PopTerminated();
      }
      UnlockPostponeAndSchedule();
    }

    /** `block` is what the allocation gave: a new address or null. */
    method ThreadCreate(block: Option<Tcb>) returns (t: Option<Tcb>)
      requires Coupled() && SI.Inv(m) && current.Some? && (block.Some? ==> block.value !in m.info)
      modifies this, mem, threadsReady
      ensures Coupled() && t == block
      ensures m == if t.Some? then S.ThreadCreate(old(m), t.value) else old(m)
    {
      t := block;
      if t == None {
        return;
      }
      Admit(t.value);
      LockPostpone();
      PushReady(t.value);
      UnlockPostponeAndSchedule();
    }

    /** A new control block, in no queue. */
    method Admit(t: Tcb)
      requires Coupled() && t !in m.info
      modifies this, mem
      ensures Coupled() && t in m.info && InNoQueue(m, t)
      ensures m == WithNew(old(m), t)
    {
      NewIsFree(m, tags, mem.next, t);
      threads := threads[t := S.Info(Running, 0, 0)];
      mem.next := mem.next[t := None];
      m, tags := WithNew(m, t), tags[t := Off];
    }

    // -------------------------------------------------------------- runs

    /** One event, where the allocations of `NewSemaphore` and `Create` succeed. */
    method Perform(e: S.Event)
      requires Coupled() && SI.Inv(m) && S.Enabled(m, e) && SI.Safe(m, e)
      modifies this, mem, threadsReady, threadsSleeping, threadsTerminated
      ensures Coupled() && SI.Inv(m) && m == S.Step(old(m), e)
    {
      SI.StepKeeps(m, e);
      match e
      case Lock(s) => LockSemaphore(s);
      case Unlock(s) => UnlockSemaphore(s);
      case Wait(s) => WaitSemaphore(s);
      case Post(s) => PostSemaphore(s);
      case Key(s) => PostSemaphore(s);
      case NewSemaphore(s, max) => var _ := CreateSemaphore(Some(s), max);
      case SleepUntil(until) => MiliSleepUntil(until);
      case Create(t) => var _ := ThreadCreate(Some(t));
      case Terminate => TerminateTask();
      case Butler => var _ := ButlerTurn();
      case Tick => TickFree(m); PitInterrupt();
      case HltReturns => IdleTest();
    }

    /** Any safe run, on the real links: it ends where the abstract run ends, with every queue a chain of its own. */
    method Run(es: seq<S.Event>)
      requires Coupled() && SI.Inv(m) && S.Possible(m, es) && SR.SafeThroughout(m, es)
      modifies this, mem, threadsReady, threadsSleeping, threadsTerminated
      ensures Coupled() && SI.Inv(m) && m == S.Run(old(m), es)
    {
      ghost var m0 := m;
      var i := 0;
      while i < |es|
        invariant 0 <= i <= |es| && Coupled() && SI.Inv(m)
        invariant S.Possible(m, es[i..]) && SR.SafeThroughout(m, es[i..]) && S.Run(m, es[i..]) == S.Run(m0, es)
      {
        assert es[i..][1..] == es[i + 1..];
        Perform(es[i]);
        i := i + 1;
      }
    }

    /** What that means for the links: from each head, exactly one queue, ending in null, in no other. */
    lemma LinksInOrder(k: Slot, h: Slot, t: Tcb)
      requires Coupled()
      ensures IsChain(mem.next, QueueOf(m, k))
      ensures threadsReady.head == At(m.ready, 0) && threadsReady.size == |m.ready|
      ensures threadsSleeping.head == At(m.sleeping, 0) && threadsSleeping.size >= |m.sleeping|
      ensures threadsTerminated.head == At(m.terminated, 0) && threadsTerminated.size == |m.terminated|
      ensures forall s :: s in semaphores ==> semaphores[s].first == At(m.sems[s].waiters, 0)
      ensures t in QueueOf(m, k) && t in QueueOf(m, h) ==> k == h
    {
      assert Slotted(m, tags, mem.next, k);
      if t in QueueOf(m, k) && t in QueueOf(m, h) {
        OneQueue(m, tags, mem.next, k, h, t);
      }
    }
  }
}
