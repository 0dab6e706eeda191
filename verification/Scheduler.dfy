/**
  The scheduler, its queues and its semaphores as a state machine over values.  Every
  function is one kernel function, composed of the same nested calls; `Kernel` proves
  its methods against them.  A lock section runs with interrupts off, so a whole call is
  one step; timer ticks, key presses and the idle loop's test are steps of their own.
 */
module Scheduler {
  import opened Threads

  /** `current_running_tcb`; it is null while the thread `owner` runs the idle loop. */
  datatype Cpu = Thread(tcb: Tcb) | Idle(owner: Tcb)

  datatype Info = Info(status: Status, pausedUntil: int, timeUsed: int)

  datatype Sem = Sem(maxCount: int, count: int, waiters: seq<Tcb>)

  /**
    `sleepSize` is `threads_sleeping->size`, which can exceed the length of the chain.
    `created` lists every TCB there ever was, `freed` those that were reclaimed, and
    `dispatched` is a history of the threads taken off the ready queue.
   */
  datatype State = State(
    irq: int, postpone: int, flag: bool,
    cpu: Cpu, butler: Tcb,
    ready: seq<Tcb>, sleeping: seq<Tcb>, sleepSize: nat, terminated: seq<Tcb>,
    sems: map<Semaphore, Sem>,
    info: map<Tcb, Info>, created: seq<Tcb>, freed: set<Tcb>,
    tick: int, lastRead: int, idleTime: int,
    dispatched: seq<Tcb>)

  function InfoOf(s: State, t: Tcb): Info {
    if t in s.info then s.info[t] else Info(Running, 0, 0)
  }

  function StatusOf(s: State, t: Tcb): Status {
    InfoOf(s, t).status
  }

  function SemOf(s: State, m: Semaphore): Sem {
    if m in s.sems then s.sems[m] else Sem(0, 0, [])
  }

  function SetStatus(s: State, t: Tcb, status: Status): State {
    s.(info := s.info[t := InfoOf(s, t).(status := status)])
  }

  /** The state `init_task` leaves: the kernel thread runs and is the butler. */
  function Init(kernel: Tcb): State {
    State(0, 0, false, Thread(kernel), kernel, [], [], 0, [], map[],
          map[kernel := Info(Running, 0, 0)], [kernel], {}, 0, 0, 0, [])
  }

  /** Every thread the queues lead to has a TCB. */
  predicate Known(s: State) {
    && s.butler in s.info
    && (forall t :: t in s.ready ==> t in s.info)
    && (forall t :: t in s.sleeping ==> t in s.info)
    && (forall m, t :: m in s.sems && t in s.sems[m].waiters ==> t in s.info)
  }

  // ---------------------------------------------------------------- switching

  function UpdateTimeUsed(s: State): State {
    var delta := s.tick - s.lastRead;
    var s1 := s.(lastRead := s.tick);
    match s.cpu
    case Idle(_) => s1.(idleTime := s.idleTime + delta)
    case Thread(c) => s1.(info := s.info[c := InfoOf(s, c).(timeUsed := InfoOf(s, c).timeUsed + delta)])
  }

  /** A switch requested while switching is postponed is refused by the assembly as well. */
  function SwitchToThread(s: State, next: Tcb): State {
    if s.postpone != 0 then s.(postpone := 1)
    else UpdateTimeUsed(s).(cpu := Thread(next))
  }

  function Schedule(s: State): (r: State)
    requires s.cpu.Thread? || s.postpone != 0
    ensures s.postpone != 0 ==> r == s.(flag := true)
  {
    if s.postpone != 0 then s.(flag := true)
    else if s.ready != [] then
      var c, next := s.cpu.tcb, s.ready[0];
      var s1 := s.(ready := s.ready[1..], dispatched := s.dispatched + [next]);
      var s2 := if StatusOf(s1, c) == Running then s1.(ready := s1.ready + [c]) else s1;
      SwitchToThread(s2, next)
    else if StatusOf(s, s.cpu.tcb) == Running then s
    else s.(cpu := Idle(s.cpu.tcb))
  }

  function LockPostpone(s: State): State {
    s.(irq := s.irq + 1, postpone := s.postpone + 1)
  }

  /**
    The outermost release performs a postponed switch.  What follows the call of
    `schedule` runs in the thread switched to, which was suspended at this very place (or
    is new and starts with the same decrement); on the way into idle it is still due.
   */
  function UnlockPostponeAndSchedule(s: State): (r: State)
    requires s.cpu.Thread? || s.postpone != 1 || !s.flag
    ensures s.postpone != 1 || !s.flag ==> r == s.(irq := s.irq - 1, postpone := s.postpone - 1)
  {
    var s1 := s.(postpone := s.postpone - 1);
    if s1.postpone == 0 && s1.flag then
      var s2 := Schedule(s1.(flag := false));
      if s2.cpu.Idle? then s2 else s2.(irq := s2.irq - 1)
    else s1.(irq := s1.irq - 1)
  }

  /** The idle loop's test after `hlt`, and the rest of the release that led into it. */
  function IdleTest(s: State): State
    requires s.cpu.Idle?
  {
    if s.ready == [] then s
    else
      var owner, next := s.cpu.owner, s.ready[0];
      var s1 := s.(ready := s.ready[1..], dispatched := s.dispatched + [next], cpu := Thread(owner));
      var s2 := if next != owner then SwitchToThread(s1, next) else s1;
      s2.(irq := s2.irq - 1)
  }

  /** Inside a section a thread that blocks keeps running; the switch is only marked. */
  function BlockTask(s: State, reason: Status): (r: State)
    requires s.cpu.Thread?
    ensures s.postpone > 0 ==> r == SetStatus(s, s.cpu.tcb, reason).(flag := true)
  {
    var s1 := SetStatus(LockPostpone(s), s.cpu.tcb, reason);
    UnlockPostponeAndSchedule(Schedule(s1))
  }

  function UnblockTask(s: State, t: Tcb): (r: State)
    requires s.cpu.Thread? || !s.flag
    ensures s.postpone > 0 || !s.flag ==> r == SetStatus(s.(ready := s.ready + [t]), t, Running)
  {
    var s1 := LockPostpone(s);
    var s2 := SetStatus(s1.(ready := s1.ready + [t]), t, Running);
    UnlockPostponeAndSchedule(s2)
  }

  // ---------------------------------------------------------------- semaphores

  /** The current thread goes to the end of the waiters and blocks. */
  function BlockOn(s: State, m: Semaphore): State
    requires s.cpu.Thread?
  {
    var sem := SemOf(s, m);
    BlockTask(s.(sems := s.sems[m := sem.(waiters := sem.waiters + [s.cpu.tcb])]), Paused)
  }

  function CreateSemaphore(s: State, m: Semaphore, max: int): State {
    s.(sems := s.sems[m := Sem(max, 0, [])])
  }

  function WaitBody(s: State, m: Semaphore): State
    requires s.cpu.Thread?
  {
    var sem := SemOf(s, m).(count := SemOf(s, m).count - 1);
    var s1 := s.(sems := s.sems[m := sem]);
    if sem.count < sem.maxCount then BlockOn(s1, m) else s1
  }

  function WaitSemaphore(s: State, m: Semaphore): State
    requires s.cpu.Thread? && s.postpone >= 0
  {
    UnlockPostponeAndSchedule(WaitBody(LockPostpone(s), m))
  }

  function LockBody(s: State, m: Semaphore): State
    requires s.cpu.Thread?
  {
    var sem := SemOf(s, m);
    if sem.count >= sem.maxCount then BlockOn(s, m)
    else s.(sems := s.sems[m := sem.(count := sem.count + 1)])
  }

  function LockSemaphore(s: State, m: Semaphore): State
    requires s.cpu.Thread? && s.postpone >= 0
  {
    UnlockPostponeAndSchedule(LockBody(LockPostpone(s), m))
  }

  /** The first waiter leaves the queue, with the count set as the caller says, and is unblocked. */
  function WakeWaiter(s: State, m: Semaphore, count: int): State
    requires s.cpu.Thread? || !s.flag
    requires SemOf(s, m).waiters != []
  {
    var sem := SemOf(s, m);
    UnblockTask(s.(sems := s.sems[m := sem.(waiters := sem.waiters[1..], count := count)]), sem.waiters[0])
  }

  function PostBody(s: State, m: Semaphore): State
    requires s.cpu.Thread? || !s.flag
  {
    if SemOf(s, m).waiters != [] then WakeWaiter(s, m, SemOf(s, m).count + 1) else s
  }

  function PostSemaphore(s: State, m: Semaphore): State
    requires s.postpone >= 0 && (s.cpu.Thread? || !s.flag)
  {
    UnlockPostponeAndSchedule(PostBody(LockPostpone(s), m))
  }

  function UnlockBody(s: State, m: Semaphore): State
    requires s.cpu.Thread? || !s.flag
  {
    var sem := SemOf(s, m);
    if sem.waiters != [] then WakeWaiter(s, m, sem.count)
    else s.(sems := s.sems[m := sem.(count := sem.count - 1)])
  }

  function UnlockSemaphore(s: State, m: Semaphore): State
    requires s.postpone >= 0 && (s.cpu.Thread? || !s.flag)
  {
    UnlockPostponeAndSchedule(UnlockBody(LockPostpone(s), m))
  }

  // ---------------------------------------------------------------- time

  /** The first sleeper, from position `i`, whose deadline has passed; the length if none. */
  function FirstExpired(s: State, i: nat): (r: nat)
    requires i <= |s.sleeping|
    ensures i <= r <= |s.sleeping|
    ensures r < |s.sleeping| ==> InfoOf(s, s.sleeping[r]).pausedUntil <= s.tick
    ensures forall j :: i <= j < r ==> InfoOf(s, s.sleeping[j]).pausedUntil > s.tick
    decreases |s.sleeping| - i
  {
    if i == |s.sleeping| || InfoOf(s, s.sleeping[i]).pausedUntil <= s.tick then i
    else FirstExpired(s, i + 1)
  }

  /** `list_thread_remove` on the sleep queue, with what it does to `size`. */
  function RemoveSleeper(s: State, i: nat): State
    requires i < |s.sleeping|
  {
    s.(sleeping := Without(s.sleeping, i),
       sleepSize := if i == 0 || i == |s.sleeping| - 1 then DecU32(s.sleepSize) else s.sleepSize)
  }

  /** Sleeper `i` has moved to the ready queue. */
  function Awoken(s: State, i: nat): State
    requires i < |s.sleeping|
  {
    var t := s.sleeping[i];
    RemoveSleeper(s, i).(ready := s.ready + [t], info := s.info[t := InfoOf(s, t).(status := Running)])
  }

  /**
    The walk over the sleep queue.  It ends at the first sleeper it wakes, because
    `unblock_task` clears the link the walk would follow.
   */
  function WakeSleeper(s: State): (r: State)
    requires s.cpu.Thread? || !s.flag
    ensures s.postpone > 0 && s.sleepSize > 0 && FirstExpired(s, 0) < |s.sleeping| ==>
      r == Awoken(s, FirstExpired(s, 0))
  {
    var i := FirstExpired(s, 0);
    if s.sleepSize > 0 && i < |s.sleeping| then UnblockTask(RemoveSleeper(s, i), s.sleeping[i]) else s
  }

  function PitBody(s: State): State
    requires s.postpone > 0 && (s.cpu.Thread? || !s.flag)
  {
    var s1 := WakeSleeper(s.(tick := s.tick + 1));
    if s1.cpu.Thread? && s1.tick % 3 == 0 then Schedule(s1) else s1
  }

  function PitInterrupt(s: State): State
    requires s.postpone >= 0 && (s.cpu.Thread? || !s.flag)
  {
    UnlockPostponeAndSchedule(PitBody(LockPostpone(s)))
  }

  function QueueSleeperBody(s: State, until: int): State
    requires s.cpu.Thread?
  {
    var c := s.cpu.tcb;
    if until < s.tick then s
    else s.(info := s.info[c := InfoOf(s, c).(pausedUntil := until)],
            sleeping := s.sleeping + [c], sleepSize := s.sleepSize + 1)
  }

  /** The section of `mili_sleep_until`: the thread is queued, but not blocked yet. */
  function QueueSleeper(s: State, until: int): State
    requires s.cpu.Thread? && s.postpone >= 0
  {
    UnlockPostponeAndSchedule(QueueSleeperBody(LockPostpone(s), until))
  }

  /** `mili_sleep_until` with no interrupt taken between its section and `block_task`. */
  function MiliSleepUntil(s: State, until: int): State
    requires s.cpu.Thread? && s.postpone == 0 && !s.flag
  {
    var s1 := QueueSleeper(s, until);
    if until < s.tick then s1 else BlockTask(s1, Sleeping)
  }

  // ---------------------------------------------------------------- birth and death

  function TerminateBody(s: State): State
    requires s.cpu.Thread? && s.postpone > 0
  {
    UnblockTask(BlockTask(s.(terminated := s.terminated + [s.cpu.tcb]), Terminated), s.butler)
  }

  function TerminateTask(s: State): State
    requires s.cpu.Thread? && s.postpone >= 0
  {
    UnlockPostponeAndSchedule(TerminateBody(LockPostpone(s)))
  }

  function ButlerBody(s: State): State
    requires s.cpu.Thread? && s.postpone > 0
  {
    if s.terminated == [] then BlockTask(s, Paused)
    else s.(terminated := s.terminated[1..], freed := s.freed + {s.terminated[0]})
  }

  /** One turn of the loop of `butler_mr_cleaner`. */
  function ButlerTurn(s: State): State
    requires s.cpu.Thread? && s.postpone >= 0
  {
    UnlockPostponeAndSchedule(ButlerBody(LockPostpone(s)))
  }

  function ThreadCreate(s: State, t: Tcb): State
    requires s.postpone >= 0 && (s.cpu.Thread? || !s.flag)
  {
    var s1 := LockPostpone(s.(info := s.info[t := Info(Running, 0, 0)], created := s.created + [t]));
    UnlockPostponeAndSchedule(s1.(ready := s1.ready + [t]))
  }

  // ---------------------------------------------------------------- steps

  datatype Event =
    | Lock(m: Semaphore) | Unlock(m: Semaphore)
    | Wait(m: Semaphore) | Post(m: Semaphore)
    | NewSemaphore(m: Semaphore, max: int)
    | SleepUntil(until: int)
    | Create(t: Tcb)
    | Terminate
    | Butler
    | Tick
    | Key(m: Semaphore)
    | HltReturns

  /**
    What can happen next, between two lock sections.  Ticks and key presses interrupt a
    thread or the idle loop; everything else is a call by the current thread.
   */
  predicate Enabled(s: State, e: Event) {
    && s.postpone == 0 && !s.flag
    && match e
       case Lock(m) => s.cpu.Thread? && m in s.sems
       case Unlock(m) => s.cpu.Thread? && m in s.sems
       case Wait(m) => s.cpu.Thread? && m in s.sems
       case Post(m) => s.cpu.Thread? && m in s.sems
       case NewSemaphore(m, _) => s.cpu.Thread? && m !in s.sems
       case SleepUntil(_) => s.cpu.Thread?
       case Create(t) => s.cpu.Thread? && t !in s.info
       case Terminate => s.cpu.Thread? && s.cpu.tcb != s.butler
       case Butler => s.cpu == Thread(s.butler)
       case Tick => true
       case Key(m) => m in s.sems
       case HltReturns => s.cpu.Idle?
  }

  function Step(s: State, e: Event): State
    requires Enabled(s, e)
  {
    match e
    case Lock(m) => LockSemaphore(s, m)
    case Unlock(m) => UnlockSemaphore(s, m)
    case Wait(m) => WaitSemaphore(s, m)
    case Post(m) => PostSemaphore(s, m)
    case NewSemaphore(m, max) => CreateSemaphore(s, m, max)
    case SleepUntil(until) => MiliSleepUntil(s, until)
    case Create(t) => ThreadCreate(s, t)
    case Terminate => TerminateTask(s)
    case Butler => ButlerTurn(s)
    case Tick => PitInterrupt(s)
    case Key(m) => PostSemaphore(s, m)
    case HltReturns => IdleTest(s)
  }

  predicate Possible(s: State, es: seq<Event>)
    decreases |es|
  {
    es == [] || (Enabled(s, es[0]) && Possible(Step(s, es[0]), es[1..]))
  }

  function Run(s: State, es: seq<Event>): State
    requires Possible(s, es)
    decreases |es|
  {
    if es == [] then s else Run(Step(s, es[0]), es[1..])
  }
}
