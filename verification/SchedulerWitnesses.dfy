/** Runs that lose the invariant, step by step: both ways it can be lost are reachable. */
module SchedulerWitnesses {
  import opened Threads
  import opened Scheduler
  import opened SchedulerInvariant
  import opened SchedulerEffects
  import opened SchedulerRuns

  predicate RunsTo(s: State, es: seq<Event>, r: State) {
    Possible(s, es) && Run(s, es) == r
  }

  lemma RunNil(r: State) returns (es: seq<Event>)
    ensures es == [] && RunsTo(r, es, r)
  {
    es := [];
  }

  lemma RunCons(s: State, e: Event, r: State, rest: seq<Event>) returns (es: seq<Event>)
    requires Enabled(s, e) && RunsTo(Step(s, e), rest, r)
    ensures es == [e] + rest && RunsTo(s, es, r)
  {
    es := [e] + rest;
    assert es[1..] == rest;
  }

  /** Three more steps in front of a run. */
  lemma RunCons3(s: State, e: Event, s1: State, e1: Event, s2: State, e2: Event, s3: State, r: State, rest: seq<Event>)
    returns (es: seq<Event>)
    requires Enabled(s, e) && s1 == Step(s, e)
    requires Enabled(s1, e1) && s2 == Step(s1, e1)
    requires Enabled(s2, e2) && s3 == Step(s2, e2)
    requires RunsTo(s3, rest, r)
    ensures es == [e, e1, e2] + rest && RunsTo(s, es, r)
  {
    es := RunCons(s2, e2, r, rest);
    es := RunCons(s1, e1, r, es);
    es := RunCons(s, e, r, es);
  }

  lemma CreateStep(s: State, t: Tcb)
    requires Enabled(s, Create(t))
    ensures Step(s, Create(t)) ==
      s.(info := s.info[t := Info(Running, 0, 0)], created := s.created + [t], ready := s.ready + [t])
  {
    StepShape(s, Create(t));
  }

  /** A tick that wakes nobody and asks for no switch. */
  lemma QuietTick(s: State)
    requires Enabled(s, Tick) && s.sleepSize == 0 && (s.tick + 1) % 3 != 0
    ensures Step(s, Tick) == s.(tick := s.tick + 1)
  {
    PitShape(s);
  }

  lemma SwitchingTick(s: State, c: Tcb)
    requires Enabled(s, Tick) && s.sleepSize == 0 && (s.tick + 1) % 3 == 0
    requires s.cpu == Thread(c) && StatusOf(s, c) == Running && s.ready != []
    ensures var r := Step(s, Tick);
      && r.cpu == Thread(s.ready[0]) && r.ready == s.ready[1..] + [c]
      && r.butler == s.butler && r.postpone == 0 && !r.flag
      && r.sleepSize == s.sleepSize && r.tick == s.tick + 1
  {
    PitShape(s);
  }

  lemma TerminateStep(s: State)
    requires Enabled(s, Terminate) && s.ready != []
    ensures var r := Step(s, Terminate);
      r.cpu == Thread(s.ready[0]) && r.ready == s.ready[1..] + [s.butler]
  {
    StepShape(s, Terminate);
  }

  lemma ThirdTick(s1: State, k: Tcb, a: Tcb) returns (s2: State, s3: State, s4: State)
    requires k != a && s1.cpu == Thread(k) && s1.ready == [a] && s1.butler == k && s1.tick == 0
    requires s1.sleepSize == 0 && s1.postpone == 0 && !s1.flag && StatusOf(s1, k) == Running
    ensures Enabled(s1, Tick) && s2 == Step(s1, Tick)
    ensures Enabled(s2, Tick) && s3 == Step(s2, Tick)
    ensures Enabled(s3, Tick) && s4 == Step(s3, Tick)
    ensures s4.cpu == Thread(a) && s4.ready == [k] && s4.butler == k && s4.postpone == 0 && !s4.flag
  {
    QuietTick(s1);
    s2 := Step(s1, Tick);
    QuietTick(s2);
    s3 := Step(s2, Tick);
    SwitchingTick(s3, k);
    s4 := Step(s3, Tick);
  }

  /** A thread that ends before the butler has parked puts the butler on the ready queue twice. */
  lemma ButlerQueuedTwice(k: Tcb, a: Tcb) returns (es: seq<Event>, r: State)
    requires k != a
    ensures es == [Create(a), Tick, Tick, Tick, Terminate]
    ensures Possible(Init(k), es) && r == Run(Init(k), es)
    ensures r.cpu == Thread(k) && k in r.ready && !Inv(r)
  {
    CreateStep(Init(k), a);
    var s1 := Step(Init(k), Create(a));
    es, r := FromReady(s1, k, a);
    es := RunCons(Init(k), Create(a), r, es);
  }

  lemma FromReady(s1: State, k: Tcb, a: Tcb) returns (es: seq<Event>, r: State)
    requires k != a && s1.cpu == Thread(k) && s1.ready == [a] && s1.butler == k && s1.tick == 0
    requires s1.sleepSize == 0 && s1.postpone == 0 && !s1.flag && StatusOf(s1, k) == Running
    ensures es == [Tick, Tick, Tick, Terminate]
    ensures RunsTo(s1, es, r) && r.cpu == Thread(k) && k in r.ready && !Inv(r)
  {
    var s2, s3, s4 := ThirdTick(s1, k, a);
    es, r := LastCall(s4, k, a);
    es := RunCons3(s1, Tick, s2, Tick, s3, Tick, s4, r, es);
  }

  lemma LastCall(s4: State, k: Tcb, a: Tcb) returns (es: seq<Event>, r: State)
    requires k != a && s4.cpu == Thread(a) && s4.ready == [k] && s4.butler == k && s4.postpone == 0 && !s4.flag
    ensures es == [Terminate]
    ensures RunsTo(s4, es, r) && r.cpu == Thread(k) && k in r.ready && !Inv(r)
  {
    TerminateStep(s4);
    r := Step(s4, Terminate);
    es := RunNil(r);
    es := RunCons(s4, Terminate, r, es);
  }

  /** Thread `c` runs, `q` are ready, nobody sleeps, and the butler, `k`, never blocked. */
  predicate Rotating(s: State, k: Tcb, c: Tcb, q: seq<Tcb>, tick: int) {
    Inv(s) && s.cpu == Thread(c) && s.ready == q && s.butler == k && s.sleepSize == 0 && s.tick == tick
  }

  lemma QuietTurn(s: State, k: Tcb, c: Tcb, q: seq<Tcb>, tick: int) returns (r: State)
    requires Rotating(s, k, c, q, tick) && (tick + 1) % 3 != 0
    ensures Enabled(s, Tick) && r == Step(s, Tick) && Rotating(r, k, c, q, tick + 1)
  {
    TickKeeps(s);
    QuietTick(s);
    r := Step(s, Tick);
  }

  lemma SwitchingTurn(s: State, k: Tcb, c: Tcb, q: seq<Tcb>, tick: int) returns (r: State)
    requires Rotating(s, k, c, q, tick) && (tick + 1) % 3 == 0 && q != []
    ensures Enabled(s, Tick) && r == Step(s, Tick) && Rotating(r, k, q[0], q[1..] + [c], tick + 1)
  {
    TickKeeps(s);
    SwitchingTick(s, c);
    r := Step(s, Tick);
  }

  lemma ThreeTicks(s: State, k: Tcb, c: Tcb, q: seq<Tcb>, tick: int) returns (s1: State, s2: State, r: State)
    requires Rotating(s, k, c, q, tick) && tick % 3 == 0 && q != []
    ensures Enabled(s, Tick) && s1 == Step(s, Tick)
    ensures Enabled(s1, Tick) && s2 == Step(s1, Tick)
    ensures Enabled(s2, Tick) && r == Step(s2, Tick)
    ensures Rotating(r, k, q[0], q[1..] + [c], tick + 3)
  {
    s1 := QuietTurn(s, k, c, q, tick);
    s2 := QuietTurn(s1, k, c, q, tick + 1);
    r := SwitchingTurn(s2, k, c, q, tick + 2);
  }

  lemma LastThreeTicks(s: State, k: Tcb, c: Tcb, q: seq<Tcb>) returns (es: seq<Event>, r: State)
    requires Rotating(s, k, c, q, 3) && q != []
    ensures es == [Tick, Tick, Tick] && RunsTo(s, es, r) && Rotating(r, k, q[0], q[1..] + [c], 6)
  {
    var s1, s2, s3 := ThreeTicks(s, k, c, q, 3);
    r := s3;
    es := RunNil(r);
    es := RunCons3(s, Tick, s1, Tick, s2, Tick, s3, r, es);
  }

  lemma SixTicks(s: State, k: Tcb, a: Tcb, b: Tcb, c: Tcb) returns (es: seq<Event>, r: State)
    requires Rotating(s, k, k, [a, b, c], 0)
    ensures es == [Tick, Tick, Tick] + [Tick, Tick, Tick]
    ensures RunsTo(s, es, r) && Rotating(r, k, b, [c, k, a], 6)
  {
    var s1, s2, s3 := ThreeTicks(s, k, k, [a, b, c], 0);
    es, r := LastThreeTicks(s3, k, a, [b, c, k]);
    es := RunCons3(s, Tick, s1, Tick, s2, Tick, s3, r, es);
  }

  /** The butler is ready, neither first nor last, and another thread has the CPU. */
  lemma ButlerInTheMiddle(k: Tcb, a: Tcb, b: Tcb, c: Tcb) returns (es: seq<Event>, r: State)
    requires k != a && k != b && k != c && a != b && a != c && b != c
    ensures es == [Create(a), Create(b), Create(c)] + ([Tick, Tick, Tick] + [Tick, Tick, Tick])
    ensures Possible(Init(k), es) && r == Run(Init(k), es)
    ensures Inv(r) && r.cpu == Thread(b) && r.ready == [c, k, a] && r.butler == k
  {
    var s1, s2, s3 := ThreeCreated(k, a, b, c);
    InitInv(k);
    CreateInv(Init(k), a, s1);
    CreateInv(s1, b, s2);
    CreateInv(s2, c, s3);
    es, r := SixTicks(s3, k, a, b, c);
    es := RunCons3(Init(k), Create(a), s1, Create(b), s2, Create(c), s3, r, es);
  }

  lemma SleepStep(s: State, until: int)
    requires Enabled(s, SleepUntil(until)) && until >= s.tick && s.ready != []
    ensures var r, c := Step(s, SleepUntil(until)), s.cpu.tcb;
      && r.cpu == Thread(s.ready[0]) && r.ready == s.ready[1..] && r.tick == s.tick
      && r.sleeping == s.sleeping + [c] && r.sleepSize == s.sleepSize + 1
      && r.postpone == 0 && !r.flag
      && InfoOf(r, c).pausedUntil == until
      && (forall t :: t in s.info ==> t in r.info && (t != c ==> r.info[t].pausedUntil == s.info[t].pausedUntil))
  {
    StepShape(s, SleepUntil(until));
  }

  lemma WakingTick(s: State, i: nat)
    requires Enabled(s, Tick) && s.sleepSize > 0 && i < |s.sleeping| && NextWoken(s) == i
    requires forall t :: t in s.sleeping ==> t in s.info
    ensures var r := Step(s, Tick);
      && r.sleeping == Without(s.sleeping, i) && r.sleepSize == RemoveSleeper(s, i).sleepSize
      && r.tick == s.tick + 1 && r.postpone == 0 && !r.flag
      && (forall t :: t in s.info ==> t in r.info && r.info[t].pausedUntil == s.info[t].pausedUntil)
  {
    PitShape(s);
    ReleaseKept(Ticked(s));
    TickedAt(s, i);
  }

  lemma TickedAt(s: State, i: nat)
    requires s.sleepSize > 0 && i < |s.sleeping| && NextWoken(s) == i
    requires forall t :: t in s.sleeping ==> t in s.info
    ensures var x := Ticked(s);
      && x.sleeping == Without(s.sleeping, i) && x.sleepSize == RemoveSleeper(s, i).sleepSize
      && x.tick == s.tick + 1 && x.info.Keys == s.info.Keys
      && (forall t :: t in s.info ==> x.info[t].pausedUntil == s.info[t].pausedUntil)
  {
    assert s.sleeping[i] in s.sleeping;
  }

  lemma CreateInv(s: State, t: Tcb, r: State)
    requires Inv(s) && Enabled(s, Create(t)) && r == Step(s, Create(t))
    ensures Inv(r)
  {
    CreateKeeps(s, t);
  }

  lemma ThreeCreated(k: Tcb, a: Tcb, b: Tcb, c: Tcb) returns (s1: State, s2: State, s3: State)
    requires k != a && k != b && k != c && a != b && a != c && b != c
    ensures Enabled(Init(k), Create(a)) && s1 == Step(Init(k), Create(a))
    ensures Enabled(s1, Create(b)) && s2 == Step(s1, Create(b))
    ensures Enabled(s2, Create(c)) && s3 == Step(s2, Create(c))
    ensures s3.cpu == Thread(k) && s3.ready == [a, b, c] && s3.sleeping == [] && s3.sleepSize == 0
    ensures s3.tick == 0 && s3.postpone == 0 && !s3.flag && s3.info.Keys == {k, a, b, c}
    ensures s3.butler == k
  {
    CreateStep(Init(k), a);
    s1 := Step(Init(k), Create(a));
    CreateStep(s1, b);
    s2 := Step(s1, Create(b));
    CreateStep(s2, c);
    s3 := Step(s2, Create(c));
  }

  /** Three sleepers of which the middle one is due first. */
  predicate ThreeSleep(s: State, k: Tcb, a: Tcb, b: Tcb) {
    && s.sleeping == [k, a, b] && s.sleepSize == 3 && s.tick == 0 && s.postpone == 0 && !s.flag
    && k in s.info && a in s.info && b in s.info
    && s.info[k].pausedUntil == 2 && s.info[a].pausedUntil == 0 && s.info[b].pausedUntil == 3
  }

  lemma FirstAsleep(s3: State, k: Tcb, a: Tcb, b: Tcb, c: Tcb) returns (s4: State)
    requires k != a && s3.cpu == Thread(k) && s3.ready == [a, b, c] && s3.sleeping == [] && s3.sleepSize == 0
    requires s3.tick == 0 && s3.postpone == 0 && !s3.flag && s3.info.Keys == {k, a, b, c}
    ensures Enabled(s3, SleepUntil(2)) && s4 == Step(s3, SleepUntil(2))
    ensures s4.cpu == Thread(a) && s4.ready == [b, c] && s4.sleeping == [k] && s4.sleepSize == 1
    ensures s4.tick == 0 && s4.postpone == 0 && !s4.flag && {k, a, b, c} <= s4.info.Keys
    ensures s4.info[k].pausedUntil == 2
  {
    SleepStep(s3, 2);
    s4 := Step(s3, SleepUntil(2));
  }

  lemma SecondAsleep(s4: State, k: Tcb, a: Tcb, b: Tcb, c: Tcb) returns (s5: State)
    requires k != a && s4.cpu == Thread(a) && s4.ready == [b, c] && s4.sleeping == [k] && s4.sleepSize == 1
    requires s4.tick == 0 && s4.postpone == 0 && !s4.flag && {k, a, b, c} <= s4.info.Keys
    requires s4.info[k].pausedUntil == 2
    ensures Enabled(s4, SleepUntil(0)) && s5 == Step(s4, SleepUntil(0))
    ensures s5.cpu == Thread(b) && s5.ready == [c] && s5.sleeping == [k, a] && s5.sleepSize == 2
    ensures s5.tick == 0 && s5.postpone == 0 && !s5.flag && {k, a, b, c} <= s5.info.Keys
    ensures s5.info[k].pausedUntil == 2 && s5.info[a].pausedUntil == 0
  {
    SleepStep(s4, 0);
    s5 := Step(s4, SleepUntil(0));
  }

  lemma TwoAsleep(s3: State, k: Tcb, a: Tcb, b: Tcb, c: Tcb) returns (s4: State, s5: State)
    requires k != a && k != b && k != c && a != b && a != c && b != c
    requires s3.cpu == Thread(k) && s3.ready == [a, b, c] && s3.sleeping == [] && s3.sleepSize == 0
    requires s3.tick == 0 && s3.postpone == 0 && !s3.flag && s3.info.Keys == {k, a, b, c}
    ensures Enabled(s3, SleepUntil(2)) && s4 == Step(s3, SleepUntil(2))
    ensures Enabled(s4, SleepUntil(0)) && s5 == Step(s4, SleepUntil(0))
    ensures s5.cpu == Thread(b) && s5.ready == [c] && s5.sleeping == [k, a] && s5.sleepSize == 2
    ensures s5.tick == 0 && s5.postpone == 0 && !s5.flag && {k, a, b, c} <= s5.info.Keys
    ensures s5.info[k].pausedUntil == 2 && s5.info[a].pausedUntil == 0
  {
    s4 := FirstAsleep(s3, k, a, b, c);
    s5 := SecondAsleep(s4, k, a, b, c);
  }

  lemma ThreeAsleep(s3: State, k: Tcb, a: Tcb, b: Tcb, c: Tcb) returns (s4: State, s5: State, s6: State)
    requires k != a && k != b && k != c && a != b && a != c && b != c
    requires s3.cpu == Thread(k) && s3.ready == [a, b, c] && s3.sleeping == [] && s3.sleepSize == 0
    requires s3.tick == 0 && s3.postpone == 0 && !s3.flag && s3.info.Keys == {k, a, b, c}
    ensures Enabled(s3, SleepUntil(2)) && s4 == Step(s3, SleepUntil(2))
    ensures Enabled(s4, SleepUntil(0)) && s5 == Step(s4, SleepUntil(0))
    ensures Enabled(s5, SleepUntil(3)) && s6 == Step(s5, SleepUntil(3))
    ensures ThreeSleep(s6, k, a, b)
  {
    s4, s5 := TwoAsleep(s3, k, a, b, c);
    SleepStep(s5, 3);
    s6 := Step(s5, SleepUntil(3));
  }

  lemma MiddleWakes(s6: State, k: Tcb, a: Tcb, b: Tcb) returns (s7: State)
    requires k != a && k != b && a != b && ThreeSleep(s6, k, a, b)
    ensures Enabled(s6, Tick) && s7 == Step(s6, Tick) && TwoSleep(s7, k, b)
  {
    assert s6.sleeping[0] == k && s6.sleeping[1] == a;
    WakingTick(s6, 1);
    s7 := Step(s6, Tick);
  }

  predicate TwoSleep(s: State, k: Tcb, b: Tcb) {
    && s.sleeping == [k, b] && s.sleepSize == 3 && s.tick == 1 && s.postpone == 0 && !s.flag
    && k in s.info && b in s.info && s.info[k].pausedUntil == 2 && s.info[b].pausedUntil == 3
  }

  lemma TheyWake(s6: State, k: Tcb, a: Tcb, b: Tcb) returns (s7: State, s8: State, r: State)
    requires k != a && k != b && a != b && ThreeSleep(s6, k, a, b)
    ensures Enabled(s6, Tick) && s7 == Step(s6, Tick)
    ensures Enabled(s7, Tick) && s8 == Step(s7, Tick)
    ensures Enabled(s8, Tick) && r == Step(s8, Tick) && r.sleeping == [] && r.sleepSize == 1
  {
    s7 := MiddleWakes(s6, k, a, b);
    s8, r := EndsWake(s7, k, b);
  }

  lemma EndsWake(s7: State, k: Tcb, b: Tcb) returns (s8: State, r: State)
    requires k != b && TwoSleep(s7, k, b)
    ensures Enabled(s7, Tick) && s8 == Step(s7, Tick)
    ensures Enabled(s8, Tick) && r == Step(s8, Tick) && r.sleeping == [] && r.sleepSize == 1
  {
    assert s7.sleeping[0] == k;
    WakingTick(s7, 0);
    s8 := Step(s7, Tick);
    assert s8.sleeping == [b] && s8.sleeping[0] == b;
    WakingTick(s8, 0);
    r := Step(s8, Tick);
  }

  /**
    When the middle one of three sleepers wakes first, `size` stays one too large, and
    when the queue has drained it still claims a sleeper.
   */
  lemma SleepQueueGoesStale(k: Tcb, a: Tcb, b: Tcb, c: Tcb) returns (es: seq<Event>, r: State)
    requires k != a && k != b && k != c && a != b && a != c && b != c
    ensures es == [Create(a), Create(b), Create(c)] + ([SleepUntil(2), SleepUntil(0), SleepUntil(3)] + [Tick, Tick, Tick])
    ensures Possible(Init(k), es) && r == Run(Init(k), es)
    ensures r.sleeping == [] && r.sleepSize == 1 && !Inv(r)
  {
    var s1, s2, s3 := ThreeCreated(k, a, b, c);
    es, r := FromCreated(s3, k, a, b, c);
    es := RunCons3(Init(k), Create(a), s1, Create(b), s2, Create(c), s3, r, es);
  }

  lemma FromCreated(s3: State, k: Tcb, a: Tcb, b: Tcb, c: Tcb) returns (es: seq<Event>, r: State)
    requires k != a && k != b && k != c && a != b && a != c && b != c
    requires s3.cpu == Thread(k) && s3.ready == [a, b, c] && s3.sleeping == [] && s3.sleepSize == 0
    requires s3.tick == 0 && s3.postpone == 0 && !s3.flag && s3.info.Keys == {k, a, b, c}
    ensures es == [SleepUntil(2), SleepUntil(0), SleepUntil(3)] + [Tick, Tick, Tick]
    ensures RunsTo(s3, es, r) && r.sleeping == [] && r.sleepSize == 1
  {
    var s4, s5, s6 := ThreeAsleep(s3, k, a, b, c);
    es, r := FromAsleep(s6, k, a, b);
    es := RunCons3(s3, SleepUntil(2), s4, SleepUntil(0), s5, SleepUntil(3), s6, r, es);
  }

  lemma FromAsleep(s6: State, k: Tcb, a: Tcb, b: Tcb) returns (es: seq<Event>, r: State)
    requires k != a && k != b && a != b && ThreeSleep(s6, k, a, b)
    ensures es == [Tick, Tick, Tick]
    ensures RunsTo(s6, es, r) && r.sleeping == [] && r.sleepSize == 1
  {
    var s7, s8, s9 := TheyWake(s6, k, a, b);
    r := s9;
    es := RunNil(r);
    es := RunCons3(s6, Tick, s7, Tick, s8, Tick, s9, r, es);
  }
}
