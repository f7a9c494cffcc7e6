/** How a run begins and comes to its end: who enters `stop_handler`, in what state, and what the statements of
  the children, the monitor and the handlers leave behind. */
module LifecycleStop {
  import opened Runs
  import opened Lifecycle
  import opened LifecycleSafety
  import opened LifecycleModes

  // ---- nobody stops the run without a request ----

  /** The monitor's loop goes on as long as `stop` is not raised, and calls `stop_handler` as soon as it is. */
  lemma CallsWhenStopped(s: State, w: Wait, yes: bool, s': State)
    requires Step(s, Exec(w, yes), s') && s.stack == Empty && s.run.main == TestStop
    ensures s'.run.main == CallStop <==> s.run.stop
    ensures s'.run.main == TestStop <==> !s.run.stop
  {
  }

  /** The `stop_handler` on top was entered by a signal or called by an alarm. */
  predicate CaughtOrAlarmed(st: Stack)
    requires st.Push? && st.top.Stopper?
  {
    st.top.caught || (st.below.Push? && st.below.top == Alarm(Done))
  }

  /** A called `stop_handler` was called by an alarm, or by the monitor when `stop` was raised; one that has
    come to the children has raised `stop`. */
  predicate StopFrames(st: Stack, stop: bool) {
    st.Push? ==>
      && StopFrames(st.below, stop)
      && (st.top.Stopper? && !stop ==>
            && CaughtOrAlarmed(st)
            && (st.top.stop == TestVisited || st.top.stop == Again || st.top.stop == Visit || st.top.stop == StopTimer
                || st.top.stop == RaiseStop))
  }

  predicate Asked(s: State) {
    && StopFrames(s.stack, s.run.stop)
    && (s.run.main == CallStop || s.run.main == Return ==> s.run.stop)
  }

  lemma {:induction false} RaisedFrames(st: Stack)
    ensures StopFrames(st, true)
  {
    if st.Push? {
      RaisedFrames(st.below);
    }
  }

  lemma AskedStays(s: State, l: Label, s': State)
    requires Asked(s) && Step(s, l, s')
    ensures Asked(s')
  {
    if s.run.stop {
      StopWithdrawn(s, l, s');
    }
    if s'.run.stop {
      RaisedFrames(s'.stack);
    } else if s.run.stop {
      assert s.stack == Empty && s'.stack == Empty;
    }
  }

  /** Whenever the monitor is at its call of `stop_handler` or behind it, `stop` is raised; so it is for every
    `stop_handler` that was neither entered by a signal nor called by an alarm, and for every one that sends
    signals to the children or waits for them. */
  lemma StopsWhenAsked(s: State)
    requires Reachable(Init, Step, s)
    ensures s.run.main == CallStop || s.run.main == Return ==> s.run.stop
    ensures s.stack.Push? && s.stack.top.Stopper? && !CaughtOrAlarmed(s.stack) ==> s.run.stop
    ensures AtKill(s, 0) || AtKill(s, 1) ==> s.run.stop
  {
    forall s, l, s' | Asked(s) && Step(s, l, s') ensures Asked(s') {
      AskedStays(s, l, s');
    }
    ReachableKeeps(Init, Step, Asked, s);
  }

  // ---- how it begins ----

  /** The monitor's first wait ends exactly when it finds pong ready right after ping; otherwise it tests ping
    again, or, having found that ready, pong. */
  lemma WaitsUntilReady(s: State, w: Wait, yes: bool, s': State)
    requires Step(s, Exec(w, yes), s') && s.stack == Empty && (s.run.main == TestReady0 || s.run.main == TestReady1)
    ensures s'.run == s.run.(main := s'.run.main) && s'.stack == Empty
    ensures s'.run.main == SetTimer <==> s.run.main == TestReady1 && s.run.pong.ready
    ensures s'.run.main == TestReady1 <==> s.run.main == TestReady0 && s.run.ping.ready
    ensures s'.run.main == TestReady0 || s'.run.main == TestReady1 || s'.run.main == SetTimer
  {
  }

  /** A child writes its pid exactly if it has found none, says that it is ready only behind `comm_pre`, which
    comes behind its handlers, and enters its loop exactly if it finds `start` set; nothing else is written. */
  lemma ChildInOrder(s: State, i: nat, s': State)
    requires i < 2 && Step(s, ChildStep(i), s')
    ensures var (c, c') := (Get(s.run, i), Get(s'.run, i));
            && (c'.pc == WritePid <==> c.pc == TestPid && c.pid == Unset)
            && (c'.pc == Interrupts <==> c.pc == WritePid || (c.pc == TestPid && c.pid != Unset))
            && (c'.pc == CommPre <==> c.pc == Interrupts)
            && (c'.pc == SetReady <==> c.pc == CommPre)
            && (c'.pc == Loop <==> c.pc == Loop || (c.pc == AwaitStart && s.run.start))
            && (c'.pid != c.pid ==> c.pc == WritePid) && (c.pc == WritePid ==> c'.pid == Real)
            && (c'.intr <==> c.intr || c.pc == Interrupts) && (c'.ready <==> c.ready || c.pc == SetReady)
            && c'.life == c.life && c'.blind == c.blind && Get(s'.run, 1 - i) == Get(s.run, 1 - i)
  {
  }

  // ---- once the monitor stops, it is quiet ----

  /** A `stop_handler` that has stopped the timer, and one that has raised `stop`. */
  predicate Untimed(f: Frame) {
    Committed(f) && f.stop != StopTimer
  }

  predicate Raised(f: Frame) {
    Untimed(f) && f.stop != RaiseStop
  }

  predicate QuietFrames(st: Stack, r: Run) {
    st.Push? ==>
      && QuietFrames(st.below, r)
      && (Untimed(st.top) ==> !r.timerOn)
      && (Raised(st.top) ==> r.stop)
  }

  /** The timer is not set, nor `stop` cleared, while a handler is on the stack. */
  lemma {:induction false} QuietLater(st: Stack, r: Run, r': Run)
    requires QuietFrames(st, r) && (r.stop ==> r'.stop) && (r'.timerOn ==> r.timerOn)
    ensures QuietFrames(st, r')
  {
    if st.Push? {
      QuietLater(st.below, r, r');
    }
  }

  predicate StopIsQuiet(s: State) {
    QuietFrames(s.stack, s.run)
  }

  lemma QuietStays(s: State, l: Label, s': State)
    requires StopIsQuiet(s) && Step(s, l, s')
    ensures StopIsQuiet(s')
  {
    if s.stack.Push? {
      QuietLater(s.stack, s.run, s'.run);
      QuietLater(s.stack.below, s.run, s'.run);
    }
  }

  lemma {:induction false} QuietUnder(st: Stack, r: Run)
    requires QuietFrames(st, r)
    ensures AnyFinished(st) ==> r.stop && !r.timerOn
  {
    if st.Push? {
      QuietUnder(st.below, r);
    }
  }

  /** Whoever sends signals to the children or waits for them has raised `stop` and stopped the timer, and so
    it stays until the final statistics are out, whatever interrupts the wait. */
  lemma StoppingIsQuiet(s: State)
    requires Reachable(Init, Step, s)
    ensures AtKill(s, 0) || AtKill(s, 1) ==> s.run.stop && !s.run.timerOn
    ensures s.finals > 0 ==> s.run.stop && !s.run.timerOn
  {
    forall s, l, s' | StopIsQuiet(s) && Step(s, l, s') ensures StopIsQuiet(s') {
      QuietStays(s, l, s');
    }
    ReachableKeeps(Init, Step, StopIsQuiet, s);
    ReachableOneStop(s);
    QuietUnder(s.stack, s.run);
  }

  // ---- what the statements of the handlers do ----

  /** Three statements of the reaper on a child it has identified: its pid becomes -1, `stop` is raised and
    the timer stopped, and nothing else changes. */
  lemma ReaperReports(s: State, i: nat, ss: seq<State>, ls: seq<Label>)
    requires i < 2 && s.stack.Push? && s.stack.top == Reaper(Mark(i))
    requires |ls| == 3 && IsPath(Step, ss, ls) && ss[0] == s && forall k :: 0 <= k < 3 ==> ls[k].Exec?
    ensures ss[3].run == Set(s.run, i, Get(s.run, i).(pid := Gone)).(stop := true, timerOn := false)
    ensures ss[3] == s.(run := ss[3].run, stack := Push(Reaper(Poll), s.stack.below))
  {
    assert Step(ss[0], ls[0], ss[1]) && Step(ss[1], ls[1], ss[2]) && Step(ss[2], ls[2], ss[3]);
  }

  /** A signal to a recorded child kills it exactly if it lives and has no handler, and then it strayed; no
    other child, and no child that is not recorded, notices it. */
  lemma SignalReaches(s: State, i: nat, w: Wait, yes: bool, s': State)
    requires i < 2 && AtKill(s, i) && Step(s, Exec(w, yes), s')
    ensures Get(s'.run, 1 - i) == Get(s.run, 1 - i)
    ensures Get(s'.run, i) == Get(s.run, i).(life := Get(s'.run, i).life)
    ensures s'.run.strays == s.run.strays + (if Get(s'.run, i).life != Get(s.run, i).life then 1 else 0)
    ensures Get(s'.run, i).life != Get(s.run, i).life <==>
            Get(s.run, i).pid == Real && !Get(s.run, i).intr && Get(s.run, i).life == Alive
    ensures Get(s'.run, i).life != Get(s.run, i).life ==> Get(s'.run, i).life == Zombie
  {
  }

  /** The counter grows by one at an iteration of ping's loop, and changes nowhere else. */
  lemma OnlyPingCounts(s: State, l: Label, s': State)
    requires Step(s, l, s')
    ensures s'.run.count == s.run.count + (if l == ChildStep(0) && s.run.ping.pc == Loop then 1 else 0)
  {
    match l {
      case Exec(w, yes) =>
        match s.stack {
          case Push(Alarm(pc), _) => assert AlarmExec(s.run, pc, w).count == s.run.count;
          case _ =>
        }
      case _ =>
    }
  }

  /** The process ends exactly by `exit`, by a `comm_cleanup` that leaves it, or by the monitor's return. */
  lemma ExitsExactly(s: State, l: Label, s': State)
    requires Step(s, l, s')
    ensures s'.run.exited <==>
      && l.Exec?
      && match s.stack
         case Empty => s.run.main == Return
         case Push(f, _) => f.Stopper? && (f.stop == Exit || (f.stop == Cleanup && l.yes))
  {
    match l {
      case Exec(w, yes) =>
        match s.stack {
          case Push(Alarm(pc), _) => assert AlarmExec(s.run, pc, w).exited == s.run.exited;
          case Push(Reaper(pc), _) => assert ReapExec(s.run, pc, w).exited == s.run.exited;
          case _ =>
        }
      case _ =>
    }
  }

  /** The wait of `stop_handler` ends exactly when it finds pong's pid at -1 right after ping's; otherwise it
    tests ping's again, or, having found that at -1, pong's. */
  lemma WaitsForBoth(s: State, w: Wait, yes: bool, s': State)
    requires Step(s, Exec(w, yes), s') && s.stack.Push? && s.stack.top.Stopper?
    requires s.stack.top.stop == TestPid0 || s.stack.top.stop == TestPid1
    ensures s'.run == s.run && s'.stack == Push(Stopper(s'.stack.top.stop, s.stack.top.caught), s.stack.below)
    ensures s'.stack.top.stop == Cleanup <==> s.stack.top.stop == TestPid1 && s.run.pong.pid == Gone
    ensures s'.stack.top.stop == TestPid1 <==> s.stack.top.stop == TestPid0 && s.run.ping.pid == Gone
    ensures s'.stack.top.stop == TestPid0 || s'.stack.top.stop == TestPid1 || s'.stack.top.stop == Cleanup
  {
  }

  /** The handler of SIGCHLD returns exactly when its wait reports that there is no child, or that none has
    died; it never stops at a child it does not know. */
  lemma ReaperReturnsExactly(s: State, w: Wait, yes: bool, s': State)
    requires Step(s, Exec(w, yes), s') && s.stack.Push? && s.stack.top.Reaper?
    ensures s'.stack == s.stack.below <==>
            || (s.stack.top.reap == Poll && w == NoChild)
            || (s.stack.top.reap == Compare1(NoChange) && s.run.pong.pid != Unset)
    ensures s'.stack != s.stack.below ==> s'.stack.Push? && s'.stack.top.Reaper? && s'.stack.below == s.stack.below
  {
    var below := s.stack.below;
    forall f ensures Push(f, below) != below {
      assert below < Push(f, below);
    }
  }

  /** A wait always has something to report, and there is a choice only between two dead children. */
  lemma WaitIsDecided(r: Run, any: bool, only: nat)
    requires only < 2
    ensures exists w :: MayReport(r, any, only, w)
    ensures forall w, w' :: MayReport(r, any, only, w) && MayReport(r, any, only, w') && w != w' ==>
              w.Of? && w'.Of? && any && r.ping.life == r.pong.life == Zombie
    ensures forall i: nat :: MayReport(r, any, only, Of(i)) ==> i < 2 && Get(r, i).life == Zombie && (any || i == only)
    ensures MayReport(r, any, only, NoChild) && any ==>
              forall i: nat :: i < 2 ==> Get(r, i).life != Alive
  {
    var w :=
      if any && r.ping.life == Zombie then Of(0)
      else if any && r.pong.life == Zombie then Of(1)
      else if any then (if r.ping.life == Alive || r.pong.life == Alive then NoChange else NoChild)
      else match Get(r, only).life
        case Zombie => Of(only)
        case Alive => NoChange
        case _ => NoChild;
    assert MayReport(r, any, only, w);
  }

  // ---- no handler interrupts itself ----

  predicate EnteredBy(f: Frame, sig: Sig) {
    match sig case Int => f.Stopper? && f.caught case Alrm => f.Alarm? case Chld => f.Reaper?
  }

  function Entries(st: Stack, sig: Sig): nat {
    if st.Push? then Entries(st.below, sig) + (if EnteredBy(st.top, sig) then 1 else 0) else 0
  }

  predicate OnceEach(s: State) {
    Entries(s.stack, Int) <= 1 && Entries(s.stack, Alrm) <= 1 && Entries(s.stack, Chld) <= 1
  }

  lemma {:induction false} EntriesBlock(st: Stack, sig: Sig)
    ensures Entries(st, sig) > 0 <==> Blocked(st, sig)
  {
    if st.Push? {
      EntriesBlock(st.below, sig);
    }
  }

  lemma OnceStays(s: State, l: Label, s': State)
    requires OnceEach(s) && Step(s, l, s')
    ensures OnceEach(s')
  {
    EntriesBlock(s.stack, Int);
    EntriesBlock(s.stack, Alrm);
    EntriesBlock(s.stack, Chld);
  }

  /** However the handlers nest, at most one frame of each signal's handler is on the stack, and a signal that
    is caught is let through exactly if there is none. */
  lemma HandlersOnce(s: State, sig: Sig)
    requires Reachable(Init, Step, s)
    ensures Entries(s.stack, sig) <= 1
    ensures Enabled(s, Deliver(sig)) <==>
      && !s.run.exited && Entries(s.stack, sig) == 0
      && (match sig case Int => s.run.intOn case Alrm => s.run.timerOn case Chld => s.run.chldOn)
  {
    forall s, l, s' | OnceEach(s) && Step(s, l, s') ensures OnceEach(s') {
      OnceStays(s, l, s');
    }
    ReachableKeeps(Init, Step, OnceEach, s);
    EntriesBlock(s.stack, sig);
  }

  // ---- the flag of the alarm ----

  /** An alarm that has passed its test and not returned. */
  predicate Entered(f: Frame) {
    f.Alarm? && f.alarm != TestIn && f.alarm != Enter
  }

  predicate AnyEntered(st: Stack) {
    st.Push? && (Entered(st.top) || AnyEntered(st.below))
  }

  /** One alarm at a time; an entered one has set the flag, and one whose `stop_handler` has returned did not
    clear it, because another `stop_handler` is at work. `called` says that the frame above is its call. */
  predicate AlarmOk(st: Stack, flag: nat, visited: nat, called: bool) {
    st.Push? ==>
      && AlarmOk(st.below, flag, visited, st.top.Stopper? && !st.top.caught)
      && (st.top.Alarm? ==> !HasAlarm(st.below))
      && (st.top == Alarm(Enter) ==> flag == 0)
      && (Entered(st.top) ==> flag == 1)
      && (st.top == Alarm(Done) && !called ==> visited > 0)
      && (st.top.Stopper? && st.top.stop == Again ==> visited > 0)
  }

  predicate FlagOk(s: State) {
    && AlarmOk(s.stack, s.run.inInterrupt, s.visited, false)
    && s.run.inInterrupt <= 1
    && (s.run.inInterrupt == 1 ==> AnyEntered(s.stack) || s.visited > 0)
  }

  /** The flag matters to alarms only; a visit once counted stays so. */
  lemma {:induction false} AlarmOkLater(st: Stack, flag: nat, visited: nat, called: bool, flag': nat, visited': nat, called': bool)
    requires AlarmOk(st, flag, visited, called) && visited' >= visited && (called ==> called' || visited' > 0)
    requires flag' == flag || !HasAlarm(st)
    ensures AlarmOk(st, flag', visited', called')
  {
    if st.Push? {
      var c := st.top.Stopper? && !st.top.caught;
      AlarmOkLater(st.below, flag, visited, c, flag', visited', c);
    }
  }

  lemma {:induction false} NoneEntered(st: Stack)
    ensures AnyEntered(st) ==> HasAlarm(st)
  {
    if st.Push? {
      NoneEntered(st.below);
    }
  }

  lemma {:induction false} AlarmBlocks(st: Stack)
    ensures HasAlarm(st) <==> Blocked(st, Alrm)
  {
    if st.Push? {
      AlarmBlocks(st.below);
    }
  }

  lemma StopperKeepsFlag(s: State, yes: bool)
    requires FlagOk(s) && s.stack.Push? && s.stack.top.Stopper?
    ensures FlagOk(Exec1(s, NoChild, yes))
  {
    var s' := Exec1(s, NoChild, yes);
    var st := s.stack;
    var called := !st.top.caught;
    if st.top.stop == Again {
      AlarmOkLater(st.below, s.run.inInterrupt, s.visited, called, s.run.inInterrupt, s.visited, false);
    } else {
      AlarmOkLater(st.below, s.run.inInterrupt, s.visited, called, s.run.inInterrupt, s'.visited, called);
    }
  }

  lemma AlarmKeepsFlag(s: State, w: Wait, yes: bool)
    requires FlagOk(s) && s.stack.Push? && s.stack.top.Alarm?
    ensures FlagOk(Exec1(s, w, yes))
  {
    var s' := Exec1(s, w, yes);
    var st := s.stack;
    NoneEntered(st.below);
    assert s'.run.inInterrupt == AlarmExec(s.run, st.top.alarm, w).inInterrupt;
    AlarmOkLater(st.below, s.run.inInterrupt, s.visited, false, s'.run.inInterrupt, s.visited, false);
  }

  lemma FlagStays(s: State, l: Label, s': State)
    requires FlagOk(s) && Step(s, l, s')
    ensures FlagOk(s')
  {
    AlarmBlocks(s.stack);
    match l {
      case Exec(w, yes) =>
        match s.stack {
          case Push(Stopper(_, _), _) => StopperKeepsFlag(s, yes);
          case Push(Alarm(_), _) => AlarmKeepsFlag(s, w, yes);
          case Push(Reaper(_), _) => ReaperKeepsFlag(s, w, yes);
          case Empty =>
        }
      case _ =>
    }
  }

  lemma ReaperKeepsFlag(s: State, w: Wait, yes: bool)
    requires FlagOk(s) && s.stack.Push? && s.stack.top.Reaper?
    ensures FlagOk(Exec1(s, w, yes))
  {
  }

  /** As long as no `stop_handler` has counted its visit every alarm that comes is served: it finds the flag
    unset, and no other alarm is at work. */
  lemma AlarmsAreServed(s: State, w: Wait, yes: bool, s': State)
    requires Reachable(Init, Step, s) && s.stack.Push? && s.stack.top == Alarm(TestIn) && Step(s, Exec(w, yes), s')
    ensures !HasAlarm(s.stack.below)
    ensures s.visited == 0 ==> s'.stack == Push(Alarm(Enter), s.stack.below)
  {
    forall s, l, s' | FlagOk(s) && Step(s, l, s') ensures FlagOk(s') {
      FlagStays(s, l, s');
    }
    ReachableKeeps(Init, Step, FlagOk, s);
    NoneEntered(s.stack.below);
  }

  /** The waits of an alarm reap a dead child exactly if it is the one waited for, or that one's pid is not
    recorded: waiting for 0 or -1 is waiting for any. */
  lemma AlarmWaitsFor(s: State, i: nat, j: nat, yes: bool)
    requires i < 2 && s.stack.Push? && s.stack.top == Alarm(if i == 0 then Wait0 else Wait1)
    ensures Enabled(s, Exec(Of(j), yes)) <==>
      !s.run.exited && j < 2 && Get(s.run, j).life == Zombie && (j == i || Get(s.run, i).pid != Real)
    ensures Enabled(s, Exec(Of(j), yes)) ==>
      Exec1(s, Of(j), yes).run == Set(s.run, j, Get(s.run, j).(life := Reaped))
  {
  }

  /** After its two waits an alarm calls `stop_handler` exactly if the time is up, `yes`, and otherwise clears
    its flag and returns. */
  lemma AlarmStopsWhenDue(ss: seq<State>, ls: seq<Label>, yes: bool)
    requires |ls| == 2 && IsPath(Step, ss, ls) && ls[0].Exec? && ls[0].yes == yes && ls[1].Exec?
    requires ss[0].stack.Push? && ss[0].stack.top == Alarm(TestTime) && ss[0].run.inInterrupt == 1
    ensures var below := ss[0].stack.below;
            && (ss[2].stack == Push(Stopper(TestVisited, false), Push(Alarm(Done), below)) <==> yes)
            && (ss[2].stack == below <==> !yes)
            && ss[2].run == ss[0].run.(inInterrupt := if yes then 1 else 0)
  {
    assert Step(ss[0], ls[0], ss[1]) && Step(ss[1], ls[1], ss[2]);
    var below := ss[0].stack.below;
    assert below < Push(Alarm(Done), below) < Push(Stopper(TestVisited, false), Push(Alarm(Done), below));
  }

  // ---- a run that comes to its end ----

  /** Two forked children at work, after the first count. */
  const WORKING := READY.(pc := Loop)
  const BUSY := INIT_RUN.(main := TestStop, ping := WORKING, pong := WORKING, start := true, count := 1,
                          chldOn := true, intOn := true, timerOn := true)

  lemma ComesToWork()
    ensures Reachable(Init, Step, Idle(BUSY))
  {
    ComesToStart();
    var e := Exec(NoChild, false);
    var r1 := GOING.(main := Begin, start := true);
    Extend(Init, Step, Idle(GOING), e, Idle(r1));
    Extend(Init, Step, Idle(r1), e, Idle(r1.(main := TestStop)));
    ChildGoes(r1.(main := TestStop), 0, WORKING);
    ChildGoes(r1.(main := TestStop, ping := WORKING), 1, WORKING);
    Extend(Init, Step, Idle(BUSY.(count := 0)), ChildStep(0), Idle(BUSY));
  }

  const LOST := WORKING.(life := Reaped, pid := Gone)
  const ASKED := BUSY.(pong := LOST, stop := true, timerOn := false)

  /** Pong dies, and the handler of SIGCHLD identifies it. */
  lemma PongDies()
    ensures Reachable(Init, Step, Reaping(BUSY.(pong := WORKING.(life := Reaped)), Mark(1)))
  {
    ComesToWork();
    var e, none := Exec(Of(1), false), Exec(NoChild, false);
    var dead, reaped := BUSY.(pong := WORKING.(life := Zombie)), BUSY.(pong := WORKING.(life := Reaped));
    Extend(Init, Step, Idle(BUSY), Dies(1), Idle(dead));
    Extend(Init, Step, Idle(dead), Deliver(Chld), Reaping(dead, Poll));
    Extend(Init, Step, Reaping(dead, Poll), e, Reaping(reaped, Compare0(Of(1))));
    Extend(Init, Step, Reaping(reaped, Compare0(Of(1))), none, Reaping(reaped, Compare1(Of(1))));
    Extend(Init, Step, Reaping(reaped, Compare1(Of(1))), none, Reaping(reaped, Mark(1)));
  }

  /** The handler marks pong, raises `stop` and stops the timer. */
  lemma PongIsReported()
    ensures Reachable(Init, Step, Idle(ASKED))
  {
    PongDies();
    var none := Exec(NoChild, false);
    var reaped, marked := BUSY.(pong := WORKING.(life := Reaped)), BUSY.(pong := LOST);
    Extend(Init, Step, Reaping(reaped, Mark(1)), none, Reaping(marked, Raise));
    Extend(Init, Step, Reaping(marked, Raise), none, Reaping(marked.(stop := true), Cancel));
    Extend(Init, Step, Reaping(marked.(stop := true), Cancel), none, Reaping(ASKED, Poll));
    ReaperReturns(ASKED);
  }

  function Ending(r: Run, pc: StopPc, above: Stack): State {
    State(r, 1, 0, Over(above, Push(Stopper(pc, false), Empty)))
  }

  /** A handler, or none, on top of a stack. */
  function Over(above: Stack, below: Stack): Stack {
    if above.Push? then Push(above.top, below) else below
  }

  const ENDING := ASKED.(main := Return)

  /** The monitor sees `stop` and calls `stop_handler`, the first to count its visit. */
  lemma CallsStop()
    ensures Reachable(Init, Step, Ending(ENDING, StopTimer, Empty))
  {
    PongIsReported();
    var e := Exec(NoChild, false);
    Extend(Init, Step, Idle(ASKED), e, Idle(ASKED.(main := CallStop)));
    Extend(Init, Step, Idle(ASKED.(main := CallStop)), e, State(ENDING, 0, 0, Push(Stopper(TestVisited, false), Empty)));
    Extend(Init, Step, State(ENDING, 0, 0, Push(Stopper(TestVisited, false), Empty)), e,
      State(ENDING, 0, 0, Push(Stopper(Visit, false), Empty)));
    Extend(Init, Step, State(ENDING, 0, 0, Push(Stopper(Visit, false), Empty)), e, Ending(ENDING, StopTimer, Empty));
  }

  /** It signals both children and comes to wait for ping. */
  lemma StopsForPing()
    ensures Reachable(Init, Step, Ending(ENDING, TestPid0, Empty))
  {
    CallsStop();
    var e := Exec(NoChild, false);
    Extend(Init, Step, Ending(ENDING, StopTimer, Empty), e, Ending(ENDING, RaiseStop, Empty));
    Extend(Init, Step, Ending(ENDING, RaiseStop, Empty), e, Ending(ENDING, Kill0, Empty));
    Extend(Init, Step, Ending(ENDING, Kill0, Empty), e, Ending(ENDING, Kill1, Empty));
    Extend(Init, Step, Ending(ENDING, Kill1, Empty), e, Ending(ENDING, TestPid0, Empty));
  }

  const ENDED := ENDING.(ping := LOST)

  function On(pc: ReaperPc): Stack {
    Push(Reaper(pc), Empty)
  }

  /** The signal makes ping end; the handler of SIGCHLD interrupts the wait and marks it. */
  lemma PingDies()
    ensures Reachable(Init, Step, Ending(ENDED, TestPid0, On(Raise)))
  {
    StopsForPing();
    var e, none := Exec(Of(0), false), Exec(NoChild, false);
    var dead, reaped := ENDING.(ping := WORKING.(life := Zombie)), ENDING.(ping := WORKING.(life := Reaped));
    Extend(Init, Step, Ending(ENDING, TestPid0, Empty), Dies(0), Ending(dead, TestPid0, Empty));
    Extend(Init, Step, Ending(dead, TestPid0, Empty), Deliver(Chld), Ending(dead, TestPid0, On(Poll)));
    Extend(Init, Step, Ending(dead, TestPid0, On(Poll)), e, Ending(reaped, TestPid0, On(Compare0(Of(0)))));
    Extend(Init, Step, Ending(reaped, TestPid0, On(Compare0(Of(0)))), none, Ending(reaped, TestPid0, On(Mark(0))));
    Extend(Init, Step, Ending(reaped, TestPid0, On(Mark(0))), none, Ending(ENDED, TestPid0, On(Raise)));
  }

  /** It returns, having found no other child. */
  lemma PingIsReported()
    ensures Reachable(Init, Step, Ending(ENDED, TestPid0, Empty))
  {
    PingDies();
    var none := Exec(NoChild, false);
    Extend(Init, Step, Ending(ENDED, TestPid0, On(Raise)), none, Ending(ENDED, TestPid0, On(Cancel)));
    Extend(Init, Step, Ending(ENDED, TestPid0, On(Cancel)), none, Ending(ENDED, TestPid0, On(Poll)));
    Extend(Init, Step, Ending(ENDED, TestPid0, On(Poll)), none, Ending(ENDED, TestPid0, Empty));
  }

  /** A run from its start to its orderly end: a child dies, `stop` is raised, the monitor calls
    `stop_handler`, the other child dies of the signal, and with both marked the final statistics come out. */
  lemma EndsInOrder() returns (s: State)
    ensures Reachable(Init, Step, s) && s.run.exited && s.finals == 1 && s.run.count == 1 && s.run.strays == 0
    ensures s.run.main == Return && s.stack == Push(Stopper(Exit, false), Empty)
    ensures s.run.ping == s.run.pong == LOST
  {
    PingIsReported();
    var e := Exec(NoChild, false);
    Extend(Init, Step, Ending(ENDED, TestPid0, Empty), e, Ending(ENDED, TestPid1, Empty));
    Extend(Init, Step, Ending(ENDED, TestPid1, Empty), e, Ending(ENDED, Cleanup, Empty));
    Extend(Init, Step, Ending(ENDED, Cleanup, Empty), e, Ending(ENDED, Final, Empty));
    var f := State(ENDED, 1, 1, Push(Stopper(Exit, false), Empty));
    Extend(Init, Step, Ending(ENDED, Final, Empty), e, f);
    s := f.(run := ENDED.(exited := true));
    Extend(Init, Step, f, e, s);
  }
}
