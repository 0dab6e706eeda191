/**
  The two nesting counters and the request flag, one call at a time: sections may nest in
  any way, threads and interrupts may interleave in any way, and the choice of the next
  thread is left open.  What each thread still owes the shared counters is kept in a
  ledger of its own.
 */
module LockProtocol {

  type Tid = nat

  /**
    Increments a thread has made and not yet undone: `sections` by `lock_postpone`, `holds`
    by `lock_scheduler`, and `tail` for the decrement it makes when it is resumed, in the
    rest of an outermost release or, if it is new, in `thread_entry`.
   */
  datatype Ledger = Ledger(sections: nat, holds: nat, tail: nat)

  /** The counters as `switch_to_thread` finds them. */
  datatype Switch = Switch(irq: int, postpone: int)

  /**
    `mine` is the ledger of the thread whose stack is in use, `suspended` has those of the
    others; while the thread idles `current_running_tcb` is null.  `passes` counts the calls
    of `schedule` that got past its test, `switches` records the switches.
   */
  datatype Machine = Machine(
    irq: int, postpone: int, flag: bool, interrupts: bool,
    self: Tid, mine: Ledger, idle: bool, suspended: map<Tid, Ledger>,
    passes: nat, switches: seq<Switch>)

  /** What `schedule` finds on the ready queue. */
  datatype Choice = Stay | SwitchTo(next: Tid) | GoIdle

  datatype Event =
    | LockPostpone
    | UnlockPostpone(choice: Choice)
    | LockScheduler
    | UnlockScheduler
    | Schedule
    | Spawn(t: Tid)
    | Cli
    | Interrupt
    | Iret
    | IdleTest(next: Tid)

  function Start(boot: Tid): Machine {
    Machine(0, 0, false, true, boot, Ledger(0, 0, 0), false, map[], 0, [])
  }

  /** The outermost release finds a request. */
  predicate Reschedules(m: Machine) {
    m.postpone == 1 && m.flag
  }

  predicate CanResume(m: Machine, t: Tid) {
    t in m.suspended && m.suspended[t].tail > 0
  }

  predicate Enabled(m: Machine, e: Event) {
    match e
    case LockPostpone => true
    case UnlockPostpone(choice) =>
      && m.mine.sections > 0
      && (Reschedules(m) && choice.SwitchTo? ==> CanResume(m, choice.next))
    case LockScheduler => !m.idle
    case UnlockScheduler => m.mine.holds > 0
    // Its callers hold a section, and the timer asks only if a thread is current.
    case Schedule => !m.idle && m.mine.sections > 0
    case Spawn(t) => t != m.self && t !in m.suspended
    case Cli => true
    case Interrupt => m.interrupts
    // The flags an interrupt restores are those it found: it was taken with interrupts on.
    case Iret => m.mine.sections == 0 && m.mine.holds == 0 && (m.idle || m.mine.tail == 0)
    case IdleTest(next) =>
      && m.idle && m.mine.sections == 0 && m.mine.tail > 0
      && (next == m.self || CanResume(m, next))
  }

  /** `--IRQ_disable_counter`, and `sti` when it reaches zero. */
  function LowerIrq(m: Machine): Machine {
    m.(irq := m.irq - 1, interrupts := m.interrupts || m.irq == 1)
  }

  /** The decrement owed by the thread resumed. */
  function Tail(m: Machine): Machine
    requires m.mine.tail > 0
  {
    LowerIrq(m.(mine := m.mine.(tail := m.mine.tail - 1)))
  }

  function Resume(m: Machine, next: Tid): Machine
    requires CanResume(m, next)
  {
    Tail(m.(self := next, mine := m.suspended[next],
            suspended := m.suspended[m.self := m.mine] - {next},
            switches := m.switches + [Switch(m.irq, m.postpone)]))
  }

  function Release(m: Machine, choice: Choice): Machine
    requires Enabled(m, UnlockPostpone(choice))
  {
    var m1 := m.(postpone := m.postpone - 1,
                 mine := m.mine.(sections := m.mine.sections - 1, tail := m.mine.tail + 1));
    if m1.postpone == 0 && m1.flag then
      var m2 := m1.(flag := false, passes := m.passes + 1);
      match choice
      case Stay => Tail(m2)
      case GoIdle => m2.(idle := true, interrupts := true)
      case SwitchTo(next) => Resume(m2, next)
    else Tail(m1)
  }

  function Step(m: Machine, e: Event): Machine
    requires Enabled(m, e)
  {
    match e
    case LockPostpone =>
      m.(irq := m.irq + 1, postpone := m.postpone + 1, interrupts := false,
         mine := m.mine.(sections := m.mine.sections + 1))
    case UnlockPostpone(choice) => Release(m, choice)
    case LockScheduler =>
      m.(irq := m.irq + 1, interrupts := false, mine := m.mine.(holds := m.mine.holds + 1))
    case UnlockScheduler =>
      LowerIrq(m.(mine := m.mine.(holds := m.mine.holds - 1)))
    case Schedule =>
      if m.postpone != 0 then m.(flag := true) else m.(passes := m.passes + 1)
    case Spawn(t) => m.(suspended := m.suspended[t := Ledger(0, 0, 1)])
    case Cli => m.(interrupts := false)
    case Interrupt => m.(interrupts := false)
    case Iret => m.(interrupts := true)
    case IdleTest(next) =>
      var m1 := m.(idle := false, interrupts := false);
      if next == m.self then Tail(m1) else Resume(m1, next)
  }

  // ---------------------------------------------------------------- the ledger balances

  predicate OwesOne(l: Ledger) {
    l.sections == 0 && l.holds == 0 && l.tail == 1
  }

  predicate OweOne(suspended: map<Tid, Ledger>) {
    forall t :: t in suspended ==> OwesOne(suspended[t])
  }

  lemma OweOneUpdate(suspended: map<Tid, Ledger>, t: Tid, l: Ledger, gone: set<Tid>)
    requires OweOne(suspended) && t !in gone
    ensures OweOne(suspended[t := l] - gone) <==> OwesOne(l)
    ensures OweOne(suspended[t := l]) <==> OwesOne(l)
  {
    assert (suspended[t := l] - gone)[t] == l;
  }

  /**
    The shared counters are what the running thread owes, and everyone else owes exactly
    one decrement.  Interrupts are on only outside all sections.
   */
  predicate Balanced(m: Machine) {
    && m.irq == m.mine.sections + m.mine.holds + m.mine.tail && m.postpone == m.mine.sections
    && m.mine.tail == (if m.idle then 1 else 0)
    && (m.idle ==> m.mine.holds == 0 && !m.flag)
    && OweOne(m.suspended)
    && m.self !in m.suspended
    && (m.postpone == 0 ==> !m.flag)
    && (m.interrupts ==> m.mine.sections == 0 && m.mine.holds == 0)
  }

  /** `lock_scheduler` is not held where the thread gives up the CPU. */
  predicate LetsGo(m: Machine, e: Event)
    requires Enabled(m, e)
  {
    e.UnlockPostpone? && Reschedules(m) && !e.choice.Stay? ==> m.mine.holds == 0
  }

  /** A release that switches nowhere. */
  lemma StayBalances(m: Machine, choice: Choice)
    requires Balanced(m) && Enabled(m, UnlockPostpone(choice)) && (choice.Stay? || !Reschedules(m))
    ensures Balanced(Release(m, choice))
  {
  }

  lemma GoIdleBalances(m: Machine)
    requires Balanced(m) && Enabled(m, UnlockPostpone(GoIdle)) && Reschedules(m)
    ensures Balanced(Release(m, GoIdle)) <==> m.mine.holds == 0
  {
  }

  lemma SwitchToBalances(m: Machine, next: Tid)
    requires Balanced(m) && Enabled(m, UnlockPostpone(SwitchTo(next))) && Reschedules(m)
    ensures Balanced(Release(m, SwitchTo(next))) <==> m.mine.holds == 0
  {
    OweOneUpdate(m.suspended, m.self, Ledger(0, m.mine.holds, 1), {next});
  }

  lemma ReleaseBalances(m: Machine, choice: Choice)
    requires Balanced(m) && Enabled(m, UnlockPostpone(choice))
    ensures Balanced(Release(m, choice)) <==> LetsGo(m, UnlockPostpone(choice))
  {
    if !Reschedules(m) || choice.Stay? {
      StayBalances(m, choice);
    } else if choice.GoIdle? {
      GoIdleBalances(m);
    } else {
      SwitchToBalances(m, choice.next);
    }
  }

  lemma SpawnBalances(m: Machine, t: Tid)
    requires Balanced(m) && Enabled(m, Spawn(t))
    ensures Balanced(Step(m, Spawn(t)))
  {
    OweOneUpdate(m.suspended, t, Ledger(0, 0, 1), {});
  }

  lemma IdleTestBalances(m: Machine, next: Tid)
    requires Balanced(m) && Enabled(m, IdleTest(next))
    ensures Balanced(Step(m, IdleTest(next)))
  {
    if next != m.self {
      OweOneUpdate(m.suspended, m.self, m.mine, {next});
    }
  }

  lemma LockPostponeBalances(m: Machine)
    requires Balanced(m) && Enabled(m, LockPostpone)
    ensures Balanced(Step(m, LockPostpone))
  {
  }

  lemma LockSchedulerBalances(m: Machine)
    requires Balanced(m) && Enabled(m, LockScheduler)
    ensures Balanced(Step(m, LockScheduler))
  {
  }

  lemma UnlockSchedulerBalances(m: Machine)
    requires Balanced(m) && Enabled(m, UnlockScheduler)
    ensures Balanced(Step(m, UnlockScheduler))
  {
  }

  lemma ScheduleBalances(m: Machine)
    requires Balanced(m) && Enabled(m, Schedule)
    ensures Balanced(Step(m, Schedule))
  {
  }

  lemma CliBalances(m: Machine)
    requires Balanced(m) && Enabled(m, Cli)
    ensures Balanced(Step(m, Cli))
  {
  }

  lemma InterruptBalances(m: Machine)
    requires Balanced(m) && Enabled(m, Interrupt)
    ensures Balanced(Step(m, Interrupt))
  {
  }

  lemma IretBalances(m: Machine)
    requires Balanced(m) && Enabled(m, Iret)
    ensures Balanced(Step(m, Iret))
  {
  }

  /** A step keeps the balance exactly when it does not carry `lock_scheduler` across a switch. */
  lemma StepBalances(m: Machine, e: Event)
    requires Balanced(m) && Enabled(m, e)
    ensures Balanced(Step(m, e)) <==> LetsGo(m, e)
  {
    match e
    case UnlockPostpone(choice) => ReleaseBalances(m, choice);
    case Spawn(t) => SpawnBalances(m, t);
    case IdleTest(next) => IdleTestBalances(m, next);
    case LockPostpone => LockPostponeBalances(m);
    case LockScheduler => LockSchedulerBalances(m);
    case UnlockScheduler => UnlockSchedulerBalances(m);
    case Schedule => ScheduleBalances(m);
    case Cli => CliBalances(m);
    case Interrupt => InterruptBalances(m);
    case Iret => IretBalances(m);
  }

  predicate Possible(m: Machine, es: seq<Event>)
    decreases |es|
  {
    es == [] || (Enabled(m, es[0]) && Possible(Step(m, es[0]), es[1..]))
  }

  function Run(m: Machine, es: seq<Event>): Machine
    requires Possible(m, es)
    decreases |es|
  {
    if es == [] then m else Run(Step(m, es[0]), es[1..])
  }

  predicate AlwaysLetsGo(m: Machine, es: seq<Event>)
    requires Possible(m, es)
    decreases |es|
  {
    es == [] || (LetsGo(m, es[0]) && AlwaysLetsGo(Step(m, es[0]), es[1..]))
  }

  predicate CleanSwitches(m: Machine) {
    forall i :: 0 <= i < |m.switches| ==> m.switches[i] == Switch(1, 0)
  }

  lemma ReleaseSwitches(m: Machine, choice: Choice)
    requires Enabled(m, UnlockPostpone(choice))
    ensures Release(m, choice).switches ==
      m.switches + if Reschedules(m) && choice.SwitchTo? then [Switch(m.irq, 0)] else []
  {
  }

  lemma IdleTestSwitches(m: Machine, next: Tid)
    requires Enabled(m, IdleTest(next))
    ensures Step(m, IdleTest(next)).switches ==
      m.switches + if next == m.self then [] else [Switch(m.irq, m.postpone)]
  {
  }

  lemma OthersDoNotSwitch(m: Machine, e: Event)
    requires Enabled(m, e) && !e.UnlockPostpone? && !e.IdleTest?
    ensures Step(m, e).switches == m.switches
  {
    match e
    case LockPostpone =>
    case LockScheduler =>
    case UnlockScheduler =>
    case Schedule =>
    case Spawn(_) =>
    case Cli =>
    case Interrupt =>
    case Iret =>
  }

  /** A switch finds the counters where they should be. */
  lemma CountersAtSwitch(m: Machine, e: Event)
    requires Balanced(m) && Enabled(m, e) && LetsGo(m, e)
    ensures e.UnlockPostpone? && Reschedules(m) && e.choice.SwitchTo? ==> m.irq == 1
    ensures e.IdleTest? ==> m.irq == 1 && m.postpone == 0
  {
  }

  lemma CleanAppend(m: Machine, r: Machine)
    requires CleanSwitches(m)
    requires r.switches == m.switches || r.switches == m.switches + [Switch(1, 0)]
    ensures CleanSwitches(r)
  {
  }

  lemma StepSwitchesCleanly(m: Machine, e: Event)
    requires Balanced(m) && Enabled(m, e) && LetsGo(m, e) && CleanSwitches(m)
    ensures CleanSwitches(Step(m, e))
  {
    if e.UnlockPostpone? {
      ReleaseSwitches(m, e.choice);
    } else if e.IdleTest? {
      IdleTestSwitches(m, e.next);
    } else {
      OthersDoNotSwitch(m, e);
    }
    CountersAtSwitch(m, e);
    CleanAppend(m, Step(m, e));
  }

  /**
    However sections nest and threads interleave, if `lock_scheduler` is never held across
    a switch then the counters balance and every switch happens with the postpone counter
    at 0 and the interrupt counter at 1.
   */
  lemma {:induction false} RunBalances(m: Machine, es: seq<Event>)
    requires Balanced(m) && CleanSwitches(m) && Possible(m, es) && AlwaysLetsGo(m, es)
    ensures Balanced(Run(m, es)) && CleanSwitches(Run(m, es))
    decreases |es|
  {
    if es != [] {
      StepBalances(m, es[0]);
      StepSwitchesCleanly(m, es[0]);
      RunBalances(Step(m, es[0]), es[1..]);
    }
  }

  lemma StartBalanced(boot: Tid)
    ensures Balanced(Start(boot)) && CleanSwitches(Start(boot))
  {
  }

  // ---------------------------------------------------------------- interrupts come back

  /** The last call that could turn interrupts on or off by itself turned them off. */
  function NextMasked(masked: bool, e: Event): bool {
    match e
    case Cli => true
    case Interrupt => true
    case UnlockPostpone(_) => false
    case UnlockScheduler => false
    case IdleTest(_) => false
    case Iret => false
    case _ => masked
  }

  function Masked(masked: bool, es: seq<Event>): bool
    decreases |es|
  {
    if es == [] then masked else Masked(NextMasked(masked, es[0]), es[1..])
  }

  /** With no increment outstanding interrupts are on, unless they are masked. */
  predicate OnUnlessMasked(m: Machine, masked: bool) {
    m.irq == 0 ==> (m.interrupts <==> !masked)
  }

  /** The last decrement turns interrupts on: every release, and the end of idling, ends with this. */
  lemma TailTurnsOn(m: Machine)
    requires m.mine.tail > 0
    ensures Tail(m).irq == 0 ==> Tail(m).interrupts
  {
  }

  lemma ResumeTurnsOn(m: Machine, next: Tid)
    requires CanResume(m, next)
    ensures var r := Resume(m, next); r.irq == 0 ==> r.interrupts
  {
  }

  lemma ReleaseTurnsOn(m: Machine, choice: Choice)
    requires Enabled(m, UnlockPostpone(choice))
    ensures var r := Release(m, choice);
      && (r.irq == 0 && !r.idle ==> r.interrupts)
      && (Reschedules(m) && choice.GoIdle? ==> r.idle && r.interrupts)
  {
    match choice
    case Stay =>
    case GoIdle =>
    case SwitchTo(next) =>
      if Reschedules(m) {
        var mine := m.mine.(sections := m.mine.sections - 1, tail := m.mine.tail + 1);
        ResumeTurnsOn(m.(postpone := 0, mine := mine, flag := false, passes := m.passes + 1), next);
      }
  }

  lemma IdleTestTurnsOn(m: Machine, next: Tid)
    requires Enabled(m, IdleTest(next))
    ensures var r := Step(m, IdleTest(next)); !r.idle && (r.irq == 0 ==> r.interrupts)
  {
  }

  /** A call that makes the last decrement leaves interrupts on, and so does going idle. */
  lemma StepTurnsOn(m: Machine, e: Event)
    requires Balanced(m) && Enabled(m, e) && LetsGo(m, e)
    requires e.UnlockPostpone? || e.UnlockScheduler? || e.IdleTest?
    ensures var r := Step(m, e);
      && (r.irq == 0 <==> r.mine == Ledger(0, 0, 0))
      && (r.irq == 0 ==> r.interrupts)
      && (e.UnlockPostpone? && Reschedules(m) && e.choice.GoIdle? ==> r.idle && r.irq == 1 && r.interrupts)
  {
    StepBalances(m, e);
    if e.UnlockPostpone? {
      ReleaseTurnsOn(m, e.choice);
    } else if e.IdleTest? {
      IdleTestTurnsOn(m, e.next);
    }
  }

  lemma OthersMask(m: Machine, e: Event, masked: bool)
    requires Balanced(m) && Enabled(m, e) && OnUnlessMasked(m, masked)
    requires !e.UnlockPostpone? && !e.UnlockScheduler? && !e.IdleTest?
    ensures OnUnlessMasked(Step(m, e), NextMasked(masked, e))
  {
    match e
    case LockPostpone =>
    case LockScheduler =>
    case Schedule =>
    case Spawn(_) =>
    case Cli =>
    case Interrupt =>
    case Iret =>
  }

  lemma StepMasks(m: Machine, e: Event, masked: bool)
    requires Balanced(m) && Enabled(m, e) && LetsGo(m, e) && OnUnlessMasked(m, masked)
    ensures OnUnlessMasked(Step(m, e), NextMasked(masked, e))
  {
    if e.UnlockPostpone? || e.UnlockScheduler? || e.IdleTest? {
      StepTurnsOn(m, e);
    } else {
      OthersMask(m, e, masked);
    }
  }

  /**
    Over any run, whenever no increment is outstanding, interrupts are off exactly if the
    last call that turns them on or off was a `cli` or the entry of an interrupt.
   */
  lemma {:induction false} InterruptsComeBack(m: Machine, es: seq<Event>, masked: bool)
    requires Balanced(m) && Possible(m, es) && AlwaysLetsGo(m, es) && OnUnlessMasked(m, masked)
    ensures OnUnlessMasked(Run(m, es), Masked(masked, es))
    decreases |es|
  {
    if es != [] {
      StepBalances(m, es[0]);
      StepMasks(m, es[0], masked);
      InterruptsComeBack(Step(m, es[0]), es[1..], NextMasked(masked, es[0]));
    }
  }

  /** Who runs after an outermost release that finds a request, and that whoever left can be resumed. */
  lemma ReleaseRuns(m: Machine, choice: Choice)
    requires Balanced(m) && Enabled(m, UnlockPostpone(choice))
    ensures var r := Release(m, choice);
      if Reschedules(m) && choice.SwitchTo? then r.self == choice.next && !r.idle && CanResume(r, m.self)
      else r.self == m.self && (r.idle <==> m.idle || (Reschedules(m) && choice.GoIdle?))
  {
    match choice
    case Stay =>
    case GoIdle =>
    case SwitchTo(next) =>
      if Reschedules(m) {
        SwitchRuns(m, next);
      }
  }

  lemma SwitchRuns(m: Machine, next: Tid)
    requires Balanced(m) && Enabled(m, UnlockPostpone(SwitchTo(next))) && Reschedules(m)
    ensures var r := Release(m, SwitchTo(next)); r.self == next && !r.idle && CanResume(r, m.self)
  {
    var r := Release(m, SwitchTo(next));
    assert m.self in r.suspended && r.suspended[m.self].tail == m.mine.tail + 1;
  }

  // ---------------------------------------------------------------- one schedule per section

  function Requests(es: seq<Event>): nat {
    if es == [] then 0 else (if es[0] == Schedule then 1 else 0) + Requests(es[1..])
  }

  /** All the steps stay inside the outermost section. */
  predicate StaysInside(m: Machine, es: seq<Event>)
    requires Possible(m, es)
    decreases |es|
  {
    m.postpone > 0 && (es == [] || StaysInside(Step(m, es[0]), es[1..]))
  }

  /** Inside a section requests are only remembered, and the same thread keeps running. */
  lemma {:induction false} InsideSection(m: Machine, es: seq<Event>)
    requires Balanced(m) && Possible(m, es) && StaysInside(m, es)
    ensures var r := Run(m, es);
      && r.self == m.self && r.idle == m.idle && r.passes == m.passes && r.switches == m.switches
      && Balanced(r) && r.postpone > 0
      && (r.flag <==> m.flag || Requests(es) > 0)
    decreases |es|
  {
    if es != [] {
      var e, m1 := es[0], Step(m, es[0]);
      StepBalances(m, e);
      InsideSection(m1, es[1..]);
    }
  }

  /**
    An outermost section, whatever nests in it: at its release `schedule` passes exactly
    once if anything in the section asked for it, and not at all otherwise; either way no
    request is left.
   */
  lemma OneSchedulePerSection(m: Machine, es: seq<Event>, choice: Choice)
    requires Balanced(m) && m.postpone == 0
    requires Enabled(m, LockPostpone) && Possible(Step(m, LockPostpone), es)
    requires StaysInside(Step(m, LockPostpone), es)
    requires var x := Run(Step(m, LockPostpone), es);
      x.postpone == 1 && Enabled(x, UnlockPostpone(choice))
    ensures var r := Step(Run(Step(m, LockPostpone), es), UnlockPostpone(choice));
      && r.passes == m.passes + (if Requests(es) > 0 then 1 else 0)
      && r.postpone == 0 && !r.flag
      && (Requests(es) == 0 ==> r.self == m.self && r.idle == m.idle)
      && (r.irq == 0 && !r.idle ==> r.interrupts)
  {
    StepBalances(m, LockPostpone);
    InsideSection(Step(m, LockPostpone), es);
    ReleaseTurnsOn(Run(Step(m, LockPostpone), es), choice);
  }

  /** No interrupt is taken in a section: the event is disabled there. */
  lemma NoInterruptInSection(boot: Tid, es: seq<Event>)
    requires Possible(Start(boot), es) && AlwaysLetsGo(Start(boot), es)
    ensures var r := Run(Start(boot), es);
      r.postpone > 0 || (!r.idle && r.irq > 0) ==> !Enabled(r, Interrupt)
  {
    StartBalanced(boot);
    RunBalances(Start(boot), es);
  }

  /**
    Holding `lock_scheduler` across a switch: the thread switched to has made all the
    decrements it owes, and runs on with interrupts off.
   */
  lemma HeldAcrossSwitch(m: Machine, next: Tid)
    requires Balanced(m) && CanResume(m, next) && Reschedules(m) && m.mine.holds > 0
    ensures var r := Release(m, SwitchTo(next));
      r.self == next && r.mine == Ledger(0, 0, 0) && r.irq == m.mine.holds && !r.interrupts
  {
  }
}
