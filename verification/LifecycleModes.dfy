/** Where the life cycle depends on the thread mode, or on what the monitor has already seen: four
  properties that hold exactly for forked children, the exact guard for a safe stop, the one statement that
  withdraws a stop, and children that are reaped unnoticed. */
module LifecycleModes {
  import opened Runs
  import opened Lifecycle
  import opened LifecycleSafety

  const NEWBORN := Child(TestPid, Unborn, false, false, Unset, false)
  const INIT_RUN := Run(Fork, Spawn0, false, NEWBORN, NEWBORN, false, false, 0, 0, false, false, false, 0)

  // ---- an interrupt that comes before the children are ready ----

  /** Two forked children that have not executed a statement yet. */
  const RECORDED := NEWBORN.(life := Alive, pid := Real)
  const EARLY := INIT_RUN.(main := TestReady0, ping := RECORDED, pong := RECORDED, chldOn := true, intOn := true)

  function Idle(r: Run): State {
    State(r, 0, 0, Empty)
  }

  const FORKED := INIT_RUN.(main := CatchChld, ping := RECORDED, pong := RECORDED)

  lemma ForksAndRecords()
    ensures Reachable(Init, Step, Idle(FORKED))
  {
    var alive := NEWBORN.(life := Alive);
    var e := Exec(NoChild, false);
    var r1 := INIT_RUN.(ping := alive, main := Record0);
    var r2 := r1.(ping := RECORDED, main := Spawn1);
    var r3 := r2.(pong := alive, main := Record1);
    Start(Init, Step, Idle(INIT_RUN));
    Extend(Init, Step, Idle(INIT_RUN), e, Idle(r1));
    Extend(Init, Step, Idle(r1), e, Idle(r2));
    Extend(Init, Step, Idle(r2), e, Idle(r3));
    Extend(Init, Step, Idle(r3), e, Idle(FORKED));
  }

  lemma ForkEarly()
    ensures Reachable(Init, Step, Idle(EARLY))
  {
    ForksAndRecords();
    MonitorReady(FORKED);
  }

  /** After starting the children the monitor installs its handlers. */
  lemma MonitorReady(r: Run)
    requires Reachable(Init, Step, Idle(r)) && r.main == CatchChld && !r.exited && !r.stop && !r.intOn
    ensures Reachable(Init, Step, Idle(r.(main := TestReady0, chldOn := true, intOn := true)))
  {
    var e := Exec(NoChild, false);
    var ss := [Idle(r), Idle(r.(chldOn := true, main := ClearStop)), Idle(r.(chldOn := true, main := CatchInt)),
               Idle(r.(main := TestReady0, chldOn := true, intOn := true))];
    assert IsPath(Step, ss, [e, e, e]);
    ExtendPath(Init, Step, ss, [e, e, e]);
  }

  function Stopping(r: Run, visited: nat, pc: StopPc, below: Stack): State {
    State(r, visited, 0, Push(Stopper(pc, true), below))
  }

  /** A keyboard interrupt enters `stop_handler`, which counts its visit. */
  lemma InterruptEnters(r: Run, below: Stack)
    requires Reachable(Init, Step, State(r, 0, 0, below))
    requires r.intOn && !r.exited && !Blocked(below, Int)
    ensures Reachable(Init, Step, Stopping(r, 1, StopTimer, below))
  {
    var e := Exec(NoChild, false);
    assert Enabled(State(r, 0, 0, below), Deliver(Int));
    Extend(Init, Step, State(r, 0, 0, below), Deliver(Int), Stopping(r, 0, TestVisited, below));
    assert StopExec(r, TestVisited, false) == r == StopExec(r, Visit, false);
    Extend(Init, Step, Stopping(r, 0, TestVisited, below), e, Stopping(r, 0, Visit, below));
    Extend(Init, Step, Stopping(r, 0, Visit, below), e, Stopping(r, 1, StopTimer, below));
  }

  /** A keyboard interrupt takes the monitor to the first signal it sends to the children; until then it stops
    the timer and raises `stop`, and does nothing else. */
  lemma InterruptStops(r: Run, below: Stack)
    requires Reachable(Init, Step, State(r, 0, 0, below))
    requires r.intOn && !r.exited && !Blocked(below, Int)
    ensures Reachable(Init, Step, Stopping(r.(stop := true, timerOn := false), 1, Kill0, below))
  {
    InterruptEnters(r, below);
    var e := Exec(NoChild, false);
    var untimed := r.(timerOn := false);
    assert StopExec(r, StopTimer, false) == untimed;
    assert StopExec(untimed, RaiseStop, false) == untimed.(stop := true);
    Extend(Init, Step, Stopping(r, 1, StopTimer, below), e, Stopping(untimed, 1, RaiseStop, below));
    Extend(Init, Step, Stopping(untimed, 1, RaiseStop, below), e, Stopping(untimed.(stop := true), 1, Kill0, below));
  }

  lemma EarlyKill(i: nat) returns (s: State)
    requires i < 2
    ensures Reachable(Init, Step, s) && AtKill(s, i)
    ensures Get(s.run, i).pid == Real && !Get(s.run, i).ready && Unprepared(Get(s.run, i))
  {
    ForkEarly();
    InterruptStops(EARLY, Empty);
    assert EARLY.(stop := true, timerOn := false) == EARLY.(stop := true);
    s := Stopping(EARLY.(stop := true), 1, Kill0, Empty);
    if i == 1 {
      var s' := Stopping(EARLY.(stop := true, strays := 1, ping := RECORDED.(life := Zombie)), 1, Kill1, Empty);
      Extend(Init, Step, s, Exec(NoChild, false), s');
      s := s';
    }
  }

  /** Judging by what the monitor has recorded of child `i`, stopping it is safe exactly if its pid is
    not recorded or it has said that it is ready. */
  lemma SafeToStop(i: nat, pid: Cell, ready: bool)
    requires i < 2
    ensures (forall s :: Reachable(Init, Step, s) && AtKill(s, i) && Get(s.run, i).pid == pid && Get(s.run, i).ready == ready
                         ==> !Unprepared(Get(s.run, i)))
            <==> pid != Real || ready
  {
    if pid != Real || ready {
      forall s | Reachable(Init, Step, s) && Get(s.run, i).pid == pid && Get(s.run, i).ready == ready
        ensures !Unprepared(Get(s.run, i))
      {
        ReachableInv(s);
      }
    } else {
      var s := EarlyKill(i);
      assert Unprepared(Get(s.run, i));
    }
  }

  // ---- a cloned child that is marked dead while it lives ----

  /** Two cloned children, neither of which has recorded its pid; ping has found its own missing. */
  const UNRECORDED := NEWBORN.(life := Alive)
  const LATE := INIT_RUN.(mode := Clone, main := TestReady0, chldOn := true, intOn := true,
                          ping := UNRECORDED.(pc := WritePid), pong := UNRECORDED)

  lemma CloneEarly()
    ensures Reachable(Init, Step, Idle(LATE))
  {
    var e := Exec(NoChild, false);
    var r0 := INIT_RUN.(mode := Clone);
    var r1 := r0.(ping := UNRECORDED, main := Spawn1);
    var r2 := r1.(pong := UNRECORDED, main := CatchChld);
    var r3 := r2.(ping := UNRECORDED.(pc := WritePid));
    var ss := [Idle(r0), Idle(r1), Idle(r2), Idle(r3)];
    Start(Init, Step, ss[0]);
    assert IsPath(Step, ss, [e, e, ChildStep(0)]);
    ExtendPath(Init, Step, ss, [e, e, ChildStep(0)]);
    MonitorReady(r3);
  }

  function Reaping(r: Run, pc: ReaperPc): State {
    State(r, 0, 0, Push(Reaper(pc), Empty))
  }

  /** A signal that a child has changed, though none has died: the wait reports 0, which is ping's pid. */
  const PING_MARKED := LATE.(ping := UNRECORDED.(pc := WritePid, pid := Gone, blind := true))

  lemma MarksPing()
    ensures Reachable(Init, Step, Reaping(PING_MARKED, Raise))
  {
    CloneEarly();
    var blind := LATE.(ping := UNRECORDED.(pc := WritePid, blind := true));
    var ss := [Idle(LATE), Reaping(LATE, Poll), Reaping(LATE, Compare0(NoChange)), Reaping(blind, Mark(0)),
               Reaping(PING_MARKED, Raise)];
    var e := Exec(NoChange, false);
    assert IsPath(Step, ss, [Deliver(Chld), e, e, e]);
    ExtendPath(Init, Step, ss, [Deliver(Chld), e, e, e]);
  }

  /** The handler goes on and marks pong in the same way. */
  const BOTH_MARKED := PING_MARKED.(stop := true, pong := UNRECORDED.(pid := Gone, blind := true))

  lemma MarksPong()
    ensures Reachable(Init, Step, Reaping(BOTH_MARKED, Raise))
  {
    MarksPing();
    var r := PING_MARKED.(stop := true);
    var blind := r.(pong := UNRECORDED.(blind := true));
    var e := Exec(NoChange, false);
    var ss := [Reaping(PING_MARKED, Raise), Reaping(r, Cancel), Reaping(r, Poll), Reaping(r, Compare0(NoChange))];
    assert IsPath(Step, ss, [e, e, e]);
    ExtendPath(Init, Step, ss, [e, e, e]);
    Extend(Init, Step, Reaping(r, Compare0(NoChange)), e, Reaping(r, Compare1(NoChange)));
    Extend(Init, Step, Reaping(r, Compare1(NoChange)), e, Reaping(blind, Mark(1)));
    Extend(Init, Step, Reaping(blind, Mark(1)), e, Reaping(BOTH_MARKED, Raise));
  }

  /** With both pids at -1 `stop_handler` signals nobody and waits for nobody. */
  lemma StopAdvances(r: Run, below: Stack, pc: StopPc)
    requires Reachable(Init, Step, Stopping(r, 1, pc, below)) && !r.exited && r.ping.pid == r.pong.pid == Gone
    requires pc == Kill0 || pc == Kill1 || pc == TestPid0 || pc == TestPid1 || pc == Cleanup
    ensures Reachable(Init, Step, Stopping(r, 1, StopNext(r, 1, pc), below))
  {
    assert StopExec(r, pc, false) == r;
    Extend(Init, Step, Stopping(r, 1, pc, below), Exec(NoChild, false), Stopping(r, 1, StopNext(r, 1, pc), below));
  }

  lemma StopFinishes(r: Run, below: Stack)
    requires Reachable(Init, Step, Stopping(r, 1, Kill0, below)) && !r.exited && r.ping.pid == r.pong.pid == Gone
    ensures Reachable(Init, Step, State(r, 1, 1, Push(Stopper(Exit, true), below)))
  {
    StopAdvances(r, below, Kill0);
    StopAdvances(r, below, Kill1);
    StopAdvances(r, below, TestPid0);
    StopAdvances(r, below, TestPid1);
    StopAdvances(r, below, Cleanup);
    assert StopExec(r, Final, false) == r;
    Extend(Init, Step, Stopping(r, 1, Final, below), Exec(NoChild, false), State(r, 1, 1, Push(Stopper(Exit, true), below)));
  }

  /** An interrupt then ends the run, final statistics and all, while both children are alive. */
  lemma FinalWithLivingChildren() returns (s: State)
    ensures Reachable(Init, Step, s) && s.run.mode == Clone && s.finals == 1
    ensures s.run.ping.life == s.run.pong.life == Alive
  {
    MarksPong();
    var below := Push(Reaper(Raise), Empty);
    var r := BOTH_MARKED;
    assert !Blocked(below, Int);
    InterruptStops(r, below);
    assert r == r.(stop := true, timerOn := false);
    StopFinishes(r, below);
    s := State(r, 1, 1, Push(Stopper(Exit, true), below));
  }

  // ---- a start with marked children ----

  /** Two cloned children that have not executed a statement, while the monitor is about to clear `stop`. */
  const EXPOSED := INIT_RUN.(mode := Clone, main := ClearStop, chldOn := true, ping := UNRECORDED, pong := UNRECORDED)

  lemma CloneExposed()
    ensures Reachable(Init, Step, Idle(EXPOSED))
  {
    var e := Exec(NoChild, false);
    var r0 := INIT_RUN.(mode := Clone);
    var r1 := r0.(ping := UNRECORDED, main := Spawn1);
    var r2 := r1.(pong := UNRECORDED, main := CatchChld);
    Start(Init, Step, Idle(r0));
    Extend(Init, Step, Idle(r0), e, Idle(r1));
    Extend(Init, Step, Idle(r1), e, Idle(r2));
    Extend(Init, Step, Idle(r2), e, Idle(EXPOSED));
  }

  const LIVING_MARKED := UNRECORDED.(pid := Gone, blind := true)

  /** A wait that names nobody marks ping, and raises `stop`. */
  lemma ExposedPing()
    ensures Reachable(Init, Step, Reaping(EXPOSED.(ping := LIVING_MARKED, stop := true), Poll))
  {
    CloneExposed();
    var e := Exec(NoChange, false);
    var blind, marked := EXPOSED.(ping := UNRECORDED.(blind := true)), EXPOSED.(ping := LIVING_MARKED);
    Extend(Init, Step, Idle(EXPOSED), Deliver(Chld), Reaping(EXPOSED, Poll));
    Extend(Init, Step, Reaping(EXPOSED, Poll), e, Reaping(EXPOSED, Compare0(NoChange)));
    Extend(Init, Step, Reaping(EXPOSED, Compare0(NoChange)), e, Reaping(blind, Mark(0)));
    Extend(Init, Step, Reaping(blind, Mark(0)), e, Reaping(marked, Raise));
    Extend(Init, Step, Reaping(marked, Raise), e, Reaping(marked.(stop := true), Cancel));
    Extend(Init, Step, Reaping(marked.(stop := true), Cancel), e, Reaping(marked.(stop := true), Poll));
  }

  const BOTH_EXPOSED := EXPOSED.(ping := LIVING_MARKED, pong := LIVING_MARKED, stop := true)

  /** The next wait marks pong. */
  lemma ExposedPong()
    ensures Reachable(Init, Step, Reaping(BOTH_EXPOSED, Poll))
  {
    ExposedPing();
    var e := Exec(NoChange, false);
    var r := EXPOSED.(ping := LIVING_MARKED, stop := true);
    var blind := r.(pong := UNRECORDED.(blind := true));
    Extend(Init, Step, Reaping(r, Poll), e, Reaping(r, Compare0(NoChange)));
    Extend(Init, Step, Reaping(r, Compare0(NoChange)), e, Reaping(r, Compare1(NoChange)));
    Extend(Init, Step, Reaping(r, Compare1(NoChange)), e, Reaping(blind, Mark(1)));
    Extend(Init, Step, Reaping(blind, Mark(1)), e, Reaping(BOTH_EXPOSED, Raise));
    Extend(Init, Step, Reaping(BOTH_EXPOSED, Raise), e, Reaping(BOTH_EXPOSED, Cancel));
    Extend(Init, Step, Reaping(BOTH_EXPOSED, Cancel), e, Reaping(BOTH_EXPOSED, Poll));
  }

  lemma ReaperIdles(r: Run, pc: ReaperPc, w: Wait)
    requires ReaperChild(r.ping, 0, pc, w) == r.ping && ReaperChild(r.pong, 1, pc, w) == r.pong
    requires pc != Raise && pc != Cancel
    ensures ReapExec(r, pc, w) == r
  {
  }

  lemma ChildUnnamed(c: Child, i: nat, pc: ReaperPc)
    requires c.pid != Unset && (pc == Poll || pc == Compare0(NoChange) || pc == Compare1(NoChange))
    ensures ReaperChild(c, i, pc, NoChange) == c
  {
  }

  /** A wait that names nobody changes nothing when no pid is 0. */
  lemma NobodyNamed(r: Run, pc: ReaperPc)
    requires r.ping.pid != Unset && r.pong.pid != Unset
    requires pc == Poll || pc == Compare0(NoChange) || pc == Compare1(NoChange)
    ensures ReapExec(r, pc, NoChange) == r
  {
    ChildUnnamed(r.ping, 0, pc);
    ChildUnnamed(r.pong, 1, pc);
    ReaperIdles(r, pc, NoChange);
  }

  /** A reaper that finds no dead child, and no pid of 0, returns. */
  lemma ReaperReturns(r: Run)
    requires Reachable(Init, Step, Reaping(r, Poll)) && !r.exited && r.ping.pid != Unset && r.pong.pid != Unset
    requires MayReport(r, true, 0, NoChange)
    ensures Reachable(Init, Step, Idle(r))
  {
    var e := Exec(NoChange, false);
    NobodyNamed(r, Poll);
    NobodyNamed(r, Compare0(NoChange));
    NobodyNamed(r, Compare1(NoChange));
    Extend(Init, Step, Reaping(r, Poll), e, Reaping(r, Compare0(NoChange)));
    Extend(Init, Step, Reaping(r, Compare0(NoChange)), e, Reaping(r, Compare1(NoChange)));
    Extend(Init, Step, Reaping(r, Compare1(NoChange)), e, Idle(r));
  }

  /** The next statement of a child that is not in its loop yet, and of the monitor. */
  lemma ChildGoes(r: Run, i: nat, c: Child)
    requires Reachable(Init, Step, Idle(r)) && !r.exited && i < 2
    requires Get(r, i).life == Alive && Get(r, i).pc != Loop && c == ChildDoes(Get(r, i), r.start)
    ensures Reachable(Init, Step, Idle(Set(r, i, c)))
  {
    assert ChildExec(r, i) == Set(r, i, c);
    Extend(Init, Step, Idle(r), ChildStep(i), Idle(Set(r, i, c)));
  }

  lemma MonitorGoes(r: Run, yes: bool)
    requires Reachable(Init, Step, Idle(r)) && !r.exited && r.main != CallStop
    ensures Reachable(Init, Step, Idle(MainExec(r, yes)))
  {
    Extend(Init, Step, Idle(r), Exec(NoChild, yes), Idle(MainExec(r, yes)));
  }

  /** A child that finds its pid set goes on until it is ready. */
  lemma ChildGetsReady(r: Run, i: nat)
    requires Reachable(Init, Step, Idle(r)) && !r.exited && i < 2
    requires Get(r, i).life == Alive && Get(r, i).pc == TestPid && Get(r, i).pid != Unset
    ensures Reachable(Init, Step, Idle(Set(r, i, Get(r, i).(pc := AwaitStart, intr := true, ready := true))))
  {
    var c := Get(r, i);
    ReachableInv(Idle(r));
    var c1, c2, c3 := c.(pc := Interrupts), c.(pc := CommPre, intr := true), c.(pc := SetReady, intr := true);
    var c4 := c.(pc := AwaitStart, intr := true, ready := true);
    ChildSteps(c, r.start, c1, c2, c3, c4);
    ChildGoes(r, i, c1);
    SetAgain(r, i, c1, c2);
    ChildGoes(Set(r, i, c1), i, c2);
    SetAgain(r, i, c2, c3);
    ChildGoes(Set(r, i, c2), i, c3);
    SetAgain(r, i, c3, c4);
    ChildGoes(Set(r, i, c3), i, c4);
  }

  lemma SetAgain(r: Run, i: nat, c: Child, c': Child)
    requires i < 2
    ensures Get(Set(r, i, c), i) == c && Set(Set(r, i, c), i, c') == Set(r, i, c')
    ensures Set(r, i, c).start == r.start && Set(r, i, c).exited == r.exited
  {
  }

  lemma ChildSteps(c: Child, start: bool, c1: Child, c2: Child, c3: Child, c4: Child)
    requires c.pc == TestPid && c.pid != Unset && !c.intr && !c.ready
    requires c1 == c.(pc := Interrupts) && c2 == c.(pc := CommPre, intr := true)
    requires c3 == c.(pc := SetReady, intr := true) && c4 == c.(pc := AwaitStart, intr := true, ready := true)
    ensures c1 == ChildDoes(c, start) && c2 == ChildDoes(c1, start) && c3 == ChildDoes(c2, start) && c4 == ChildDoes(c3, start)
  {
  }

  const MARKED_READY := LIVING_MARKED.(pc := AwaitStart, intr := true, ready := true)
  const MARKED_STARTED :=
    BOTH_EXPOSED.(main := Begin, stop := false, intOn := true, start := true, ping := MARKED_READY, pong := MARKED_READY)

  /** `stop` is cleared, the children get ready, and the monitor lets them start. */
  lemma MarkedChildrenStart()
    ensures Reachable(Init, Step, Idle(MARKED_STARTED))
  {
    ExposedPong();
    ReaperReturns(BOTH_EXPOSED);
    var e := Exec(NoChild, false);
    var r0 := BOTH_EXPOSED.(main := CatchInt, stop := false);
    var r1 := r0.(main := TestReady0, intOn := true);
    Extend(Init, Step, Idle(BOTH_EXPOSED), e, Idle(r0));
    Extend(Init, Step, Idle(r0), e, Idle(r1));
    ChildGetsReady(r1, 0);
    ChildGetsReady(r1.(ping := MARKED_READY), 1);
    MonitorStarts(r1.(ping := MARKED_READY, pong := MARKED_READY), false);
    Extend(Init, Step, Idle(MARKED_STARTED.(main := SetStart, start := false)), e, Idle(MARKED_STARTED));
  }

  /** With both children ready the monitor comes to the start, with or without a timer. */
  lemma MonitorStarts(r: Run, timer: bool)
    requires Reachable(Init, Step, Idle(r)) && !r.exited && r.main == TestReady0 && r.ping.ready && r.pong.ready
    ensures Reachable(Init, Step, Idle(r.(main := SetStart, timerOn := timer)))
  {
    var r1, r2 := r.(main := TestReady1), r.(main := SetTimer);
    assert MainExec(r, timer) == r1 && MainExec(r1, timer) == r2;
    assert MainExec(r2, timer) == r.(main := SetStart, timerOn := timer);
    MonitorGoes(r, timer);
    MonitorGoes(r1, timer);
    MonitorGoes(r2, timer);
  }

  // ---- a stop that is withdrawn ----

  const DEAD := RECORDED.(life := Reaped, pid := Gone)
  const WATCHED := FORKED.(main := ClearStop, chldOn := true)
  const WIDOWED := WATCHED.(ping := DEAD, stop := true)

  /** A forked child dies and is reaped before the monitor clears `stop`. */
  lemma DiesEarly()
    ensures Reachable(Init, Step, Idle(WIDOWED))
  {
    ForksAndRecords();
    Extend(Init, Step, Idle(FORKED), Exec(NoChild, false), Idle(WATCHED));
    var e := Exec(Of(0), false);
    var zombie := WATCHED.(ping := RECORDED.(life := Zombie));
    Extend(Init, Step, Idle(WATCHED), Dies(0), Idle(zombie));
    Extend(Init, Step, Idle(zombie), Deliver(Chld), Reaping(zombie, Poll));
    Extend(Init, Step, Reaping(zombie, Poll), e, Reaping(REAPED, Compare0(Of(0))));
    MarksTheDead();
    ReaperReturns(WIDOWED);
  }

  const REAPED := WATCHED.(ping := RECORDED.(life := Reaped))

  /** The reaper marks ping, which its wait has named. */
  lemma MarksTheDead()
    requires Reachable(Init, Step, Reaping(REAPED, Compare0(Of(0))))
    ensures Reachable(Init, Step, Reaping(WIDOWED, Poll))
  {
    var e := Exec(NoChild, false);
    var marked := WATCHED.(ping := DEAD);
    Extend(Init, Step, Reaping(REAPED, Compare0(Of(0))), e, Reaping(REAPED, Mark(0)));
    Extend(Init, Step, Reaping(REAPED, Mark(0)), e, Reaping(marked, Raise));
    Extend(Init, Step, Reaping(marked, Raise), e, Reaping(WIDOWED, Cancel));
    Extend(Init, Step, Reaping(WIDOWED, Cancel), e, Reaping(WIDOWED, Poll));
  }

  /** A raised `stop` is withdrawn exactly by the monitor's own clearing statement. */
  lemma StopWithdrawn(s: State, l: Label, s': State)
    requires Step(s, l, s') && s.run.stop
    ensures !s'.run.stop <==> l.Exec? && s.stack == Empty && s.run.main == ClearStop
  {
    match l {
      case Exec(w, yes) =>
        match s.stack {
          case Push(Stopper(pc, _), _) => assert StopExec(s.run, pc, yes).stop;
          case Push(Alarm(pc), _) => assert AlarmExec(s.run, pc, w).stop;
          case Push(Reaper(pc), _) => assert ReapExec(s.run, pc, w).stop;
          case _ =>
        }
      case _ =>
    }
  }

  // ---- a child that is reaped behind the reaper's back ----

  /** A reaper on the stack will mark child `i`. */
  predicate Holding(st: Stack, i: nat) {
    st.Push? && (
      || st.top == Reaper(Compare0(Of(i))) || (i == 1 && st.top == Reaper(Compare1(Of(1)))) || st.top == Reaper(Mark(i))
      || Holding(st.below, i))
  }

  /** Child `i` is reaped, its pid recorded, and nobody is about to mark it. */
  predicate Missed(s: State, i: nat)
    requires i < 2
  {
    var c := Get(s.run, i);
    c.life == Reaped && c.pid == Real && !c.blind && !Holding(s.stack, i)
  }

  lemma MissedStays(s: State, l: Label, s': State, i: nat)
    requires Inv(s) && Step(s, l, s') && i < 2 && Missed(s, i)
    ensures Missed(s', i)
  {
    match l {
      case Exec(w, yes) =>
        match s.stack {
          case Empty => SpawnsNone(s.run, yes, i);
          case Push(Stopper(pc, _), _) => assert Get(StopExec(s.run, pc, yes), i) == Get(s.run, i);
          case Push(Alarm(pc), _) => assert Get(AlarmExec(s.run, pc, w), i) == Get(s.run, i);
          case Push(Reaper(pc), below) => ReaperMisses(s.run, pc, below, w, i);
        }
      case ChildStep(j) => assert j != i;
      case Dies(j) => assert j != i;
      case _ =>
    }
  }

  lemma SpawnsNone(r: Run, yes: bool, i: nat)
    requires RunOk(r) && i < 2 && Get(r, i).life == Reaped && Get(r, i).pid == Real
    ensures Get(MainExec(r, yes), i) == Get(r, i)
  {
  }

  lemma ReaperMisses(r: Run, pc: ReaperPc, below: Stack, w: Wait, i: nat)
    requires i < 2 && Get(r, i).life == Reaped && Get(r, i).pid == Real
    requires !Holding(Push(Reaper(pc), below), i) && (pc == Poll ==> w != Of(i))
    ensures Get(ReapExec(r, pc, w), i) == Get(r, i) && !Holding(ReapNext(r, pc, below, w), i)
  {
  }

  /** Then the final statistics are not out. */
  lemma MissedHasNoFinal(s: State, i: nat)
    requires Reachable(Init, Step, s) && i < 2 && Missed(s, i)
    ensures s.finals == 0
  {
    ReachableInv(s);
    ReachableOneStop(s);
    if AnyFinished(s.stack) {
      FinishedFrame(s.stack, s.run);
    }
  }

  predicate HasAlarm(st: Stack) {
    st.Push? && (st.top.Alarm? || HasAlarm(st.below))
  }

  /** A reaped child is marked, or a reaper on the stack is about to mark it. */
  predicate Tended(c: Child, st: Stack, i: nat) {
    c.life == Reaped ==> c.pid == Gone || Holding(st, i)
  }

  predicate QuietInv(s: State) {
    && Inv(s)
    && (s.run.mode == Fork ==> !HasAlarm(s.stack) && Tended(s.run.ping, s.stack, 0) && Tended(s.run.pong, s.stack, 1))
  }

  /** The system without alarms. */
  predicate QuietStep(s: State, l: Label, s': State) {
    Step(s, l, s') && l != Deliver(Alrm)
  }

  lemma ReaperTends(r: Run, pc: ReaperPc, below: Stack, w: Wait, i: nat)
    requires RunOk(r) && r.mode == Fork && r.chldOn && i < 2
    requires Tended(Get(r, i), Push(Reaper(pc), below), i)
    requires pc == Poll && w.Of? ==> w.i < 2 && Get(r, w.i).life == Zombie
    ensures Tended(Get(ReapExec(r, pc, w), i), ReapNext(r, pc, below, w), i)
  {
    assert r.ping.pid != Unset && r.pong.pid != Unset;
  }

  lemma MainTends(r: Run, yes: bool, i: nat)
    requires RunOk(r) && r.mode == Fork && i < 2
    ensures Get(MainExec(r, yes), i).life == Reaped ==>
      Get(r, i).life == Reaped && Get(MainExec(r, yes), i).pid == Get(r, i).pid
  {
  }

  lemma QuietKeeps(s: State, l: Label, s': State)
    requires QuietInv(s) && QuietStep(s, l, s')
    ensures QuietInv(s')
  {
    StepKeeps(s, l, s');
    ModeStays(s, l, s');
    if s.run.mode == Fork {
      match l {
        case Exec(w, yes) =>
          match s.stack {
            case Empty =>
              MainTends(s.run, yes, 0);
              MainTends(s.run, yes, 1);
            case Push(Stopper(pc, _), _) => StopTends(s, yes);
            case Push(Reaper(pc), below) =>
              ReaperTends(s.run, pc, below, w, 0);
              ReaperTends(s.run, pc, below, w, 1);
            case _ =>
          }
        case _ =>
      }
    }
  }

  lemma StopTends(s: State, yes: bool)
    requires QuietInv(s) && s.run.mode == Fork && s.stack.Push? && s.stack.top.Stopper?
    ensures var s' := Exec1(s, NoChild, yes);
            !HasAlarm(s'.stack) && Tended(s'.run.ping, s'.stack, 0) && Tended(s'.run.pong, s'.stack, 1)
  {
  }

  lemma QuietInductive()
    ensures Inductive(Init, QuietStep, QuietInv)
  {
    forall s, l, s' | QuietInv(s) && QuietStep(s, l, s') ensures QuietInv(s') {
      QuietKeeps(s, l, s');
    }
  }

  // ---- main results ----

  /** A pid of -1 means a reaped child exactly when the children are forked: a monitor that clones them
    does not know their pids until they record them. */
  lemma GoneMeansReaped(mode: Mode)
    ensures (forall s, i :: Reachable(Init, Step, s) && s.run.mode == mode && 0 <= i < 2 && Get(s.run, i).pid == Gone
                            ==> Get(s.run, i).life == Reaped)
            <==> mode == Fork
  {
    if mode == Fork {
      forall s, i | Reachable(Init, Step, s) && s.run.mode == mode && 0 <= i < 2 && Get(s.run, i).pid == Gone
        ensures Get(s.run, i).life == Reaped
      {
        ReachableInv(s);
      }
    } else {
      MarksPing();
      var s := Reaping(PING_MARKED, Raise);
      assert Get(s.run, 0).pid == Gone && Get(s.run, 0).life == Alive;
    }
  }

  /** A pid stays -1 exactly when the children are forked: a cloned child may still overwrite it. */
  lemma GoneIsForEver(mode: Mode)
    ensures (forall s, l, s', i :: Reachable(Init, Step, s) && s.run.mode == mode && Step(s, l, s')
                                   && 0 <= i < 2 && Get(s.run, i).pid == Gone
                                   ==> Get(s'.run, i).pid == Gone)
            <==> mode == Fork
  {
    if mode == Fork {
      forall s, l, s', i | Reachable(Init, Step, s) && s.run.mode == mode && Step(s, l, s')
                           && 0 <= i < 2 && Get(s.run, i).pid == Gone
        ensures Get(s'.run, i).pid == Gone
      {
        ReachableInv(s);
        StepKeeps(s, l, s');
        Extend(Init, Step, s, l, s');
        ModeStays(s, l, s');
      }
    } else {
      MarksPing();
      var s := Reaping(PING_MARKED, Raise);
      var s' := Reaping(PING_MARKED.(ping := PING_MARKED.ping.(pid := Real, pc := Interrupts)), Raise);
      assert Step(s, ChildStep(0), s');
      assert Get(s.run, 0).pid == Gone && Get(s'.run, 0).pid == Real;
    }
  }

  lemma ModeStays(s: State, l: Label, s': State)
    requires Step(s, l, s')
    ensures s'.run.mode == s.run.mode
  {
  }

  /** The final statistics come out only after both children have been reaped exactly when they were
    forked. */
  lemma FinalMeansReaped(mode: Mode)
    ensures (forall s :: Reachable(Init, Step, s) && s.run.mode == mode && s.finals > 0
                         ==> s.run.ping.life == s.run.pong.life == Reaped)
            <==> mode == Fork
  {
    if mode == Fork {
      forall s | Reachable(Init, Step, s) && s.run.mode == mode && s.finals > 0
        ensures s.run.ping.life == s.run.pong.life == Reaped
      {
        ReachableInv(s);
        OneFinal(s);
      }
    } else {
      var s := FinalWithLivingChildren();
    }
  }

  /** A living child that has been started has its pid recorded exactly if it was forked: a cloned one may
    have been marked before it looked. */
  lemma StartedPidIsReal(mode: Mode)
    ensures (forall s, i :: Reachable(Init, Step, s) && s.run.mode == mode && s.run.start
                            && 0 <= i < 2 && Get(s.run, i).life == Alive
                            ==> Get(s.run, i).pid == Real)
            <==> mode == Fork
  {
    if mode == Fork {
      forall s, i | Reachable(Init, Step, s) && s.run.mode == mode && s.run.start
                    && 0 <= i < 2 && Get(s.run, i).life == Alive
        ensures Get(s.run, i).pid == Real
      {
        ReachableInv(s);
      }
    } else {
      MarkedChildrenStart();
      var s := Idle(MARKED_STARTED);
      assert Get(s.run, 0).life == Alive && Get(s.run, 0).pid == Gone;
    }
  }

  /** In either mode a raised `stop` outlives every step at every statement of the monitor but the one that
    clears it. */
  lemma StopIsKept(mode: Mode, p: MainPc)
    ensures (forall s, l, s' :: Reachable(Init, Step, s) && s.run.mode == mode && s.run.main == p && s.run.stop
                                && Step(s, l, s')
                                ==> s'.run.stop)
            <==> p != ClearStop
  {
    if p != ClearStop {
      forall s, l, s' | Reachable(Init, Step, s) && s.run.mode == mode && s.run.main == p && s.run.stop && Step(s, l, s')
        ensures s'.run.stop
      {
        StopWithdrawn(s, l, s');
      }
    } else {
      var r := if mode == Fork then WIDOWED else BOTH_EXPOSED;
      if mode == Fork {
        DiesEarly();
      } else {
        ExposedPong();
        ReaperReturns(BOTH_EXPOSED);
      }
      var s, s' := Idle(r), Idle(r.(stop := false, main := CatchInt));
      assert Step(s, Exec(NoChild, false), s');
    }
  }

  /** A missed child is missed for ever, and the final statistics never come out. */
  lemma {:induction false} MissedForEver(i: nat, ss: seq<State>, ls: seq<Label>)
    requires IsPath(Step, ss, ls) && Reachable(Init, Step, ss[0]) && i < 2 && Missed(ss[0], i)
    ensures Reachable(Init, Step, ss[|ls|]) && Missed(ss[|ls|], i) && ss[|ls|].finals == 0
    decreases |ls|
  {
    if |ls| > 0 {
      var n := |ls| - 1;
      MissedForEver(i, ss[..n + 1], ls[..n]);
      assert Step(ss[n], ls[n], ss[n + 1]);
      ReachableInv(ss[n]);
      MissedStays(ss[n], ls[n], ss[n + 1], i);
      Extend(Init, Step, ss[n], ls[n], ss[n + 1]);
    }
    MissedHasNoFinal(ss[|ls|], i);
  }

  const GOING := EARLY.(main := SetStart, timerOn := true, ping := READY, pong := READY)
  const READY := RECORDED.(pc := AwaitStart, intr := true, ready := true)

  lemma ComesToStart()
    ensures Reachable(Init, Step, Idle(GOING))
  {
    ForkEarly();
    ChildGetsReady(EARLY, 0);
    ChildGetsReady(EARLY.(ping := READY), 1);
    MonitorStarts(EARLY.(ping := READY, pong := READY), true);
  }

  function Alarming(r: Run, pc: AlarmPc): State {
    State(r, 0, 0, Push(Alarm(pc), Empty))
  }

  /** A child dies, and an alarm is let through before the signal of its death. */
  function Unnoticed(i: nat): Run {
    Set(GOING.(inInterrupt := 1), i, READY.(life := Zombie))
  }

  lemma AlarmComesFirst(i: nat)
    requires i < 2
    ensures Reachable(Init, Step, Alarming(Unnoticed(i), Wait0))
  {
    ComesToStart();
    var r := Unnoticed(i).(inInterrupt := 0);
    var e := Exec(NoChange, false);
    Extend(Init, Step, Idle(GOING), Dies(i), Idle(r));
    Extend(Init, Step, Idle(r), Deliver(Alrm), Alarming(r, TestIn));
    Extend(Init, Step, Alarming(r, TestIn), e, Alarming(r, Enter));
    Extend(Init, Step, Alarming(r, Enter), e, Alarming(Unnoticed(i), Wait0));
  }

  /** It does happen: the wait of an alarm reaps either forked child before the reaper comes to it. */
  lemma AlarmMissesChild(i: nat) returns (s: State)
    requires i < 2
    ensures Reachable(Init, Step, s) && s.run.mode == Fork && Missed(s, i)
  {
    AlarmComesFirst(i);
    var r := Unnoticed(i);
    var r' := Set(r, i, READY.(life := Reaped));
    if i == 0 {
      s := Alarming(r', Wait1);
      Extend(Init, Step, Alarming(r, Wait0), Exec(Of(0), false), s);
    } else {
      Extend(Init, Step, Alarming(r, Wait0), Exec(NoChange, false), Alarming(r, Wait1));
      s := Alarming(r', TestTime);
      Extend(Init, Step, Alarming(r, Wait1), Exec(Of(1), false), s);
    }
  }

  /** A run that no alarm interrupts, unless `alarms`. */
  ghost predicate RunWith(alarms: bool, ss: seq<State>, ls: seq<Label>) {
    IsRun(Init, Step, ss, ls) && (alarms || forall k :: 0 <= k < |ls| ==> ls[k] != Deliver(Alrm))
  }

  lemma QuietRuns(ss: seq<State>, ls: seq<Label>)
    requires RunWith(false, ss, ls)
    ensures QuietInv(ss[|ls|])
  {
    forall k | 0 <= k < |ls| ensures QuietStep(ss[k], ls[k], ss[k + 1]) {
      assert Step(ss[k], ls[k], ss[k + 1]);
    }
    QuietInductive();
    RunsKeep(Init, QuietStep, QuietInv, ss, ls);
  }

  /** In forked runs every reaped child is marked, or about to be, exactly as long as there are no alarms. */
  lemma ReapedIsMarked(alarms: bool)
    ensures (forall ss: seq<State>, ls: seq<Label>, i ::
               RunWith(alarms, ss, ls) && ss[|ls|].run.mode == Fork && 0 <= i < 2
               ==> Tended(Get(ss[|ls|].run, i), ss[|ls|].stack, i))
            <==> !alarms
  {
    if alarms {
      var s := AlarmMissesChild(0);
      var ss: seq<State>, ls: seq<Label> :| IsRun(Init, Step, ss, ls) && ss[|ls|] == s;
      assert RunWith(true, ss, ls) && !Tended(Get(s.run, 0), s.stack, 0);
    } else {
      forall ss: seq<State>, ls: seq<Label>, i | RunWith(alarms, ss, ls) && ss[|ls|].run.mode == Fork && 0 <= i < 2
        ensures Tended(Get(ss[|ls|].run, i), ss[|ls|].stack, i)
      {
        QuietRuns(ss, ls);
      }
    }
  }
}
