/** The life of a run: the monitor starts two children, waits until they are ready, lets them go and
  finally stops them, while its signal handlers interrupt it, and each other, between any two
  statements. */
module Lifecycle {

  datatype Mode = Fork | Clone

  /** A `thread_info` pid: 0, the child's pid, or -1. */
  datatype Cell = Unset | Real | Gone

  datatype Life = Unborn | Alive | Zombie | Reaped

  datatype ChildPc = TestPid | WritePid | Interrupts | CommPre | SetReady | AwaitStart | Loop

  /** `intr` says the interrupt handler is installed. `blind` records that the child was marked dead on
    the strength of a wait that named no child. */
  datatype Child = Child(pc: ChildPc, life: Life, intr: bool, ready: bool, pid: Cell, blind: bool)

  /** The statements of `do_monitor_work`, after those that start the children. */
  datatype MainPc =
    | Spawn0 | Record0 | Spawn1 | Record1 | CatchChld | ClearStop | CatchInt | TestReady0 | TestReady1
    | SetTimer | SetStart | Begin | TestStop | CallStop | Return

  /** The statements of `stop_handler`. */
  datatype StopPc =
    | TestVisited | Visit | StopTimer | RaiseStop | Kill0 | Kill1 | TestPid0 | TestPid1
    | Cleanup | Final | Exit | Again

  /** The statements of `monitor_interrupt`. */
  datatype AlarmPc = TestIn | Enter | Wait0 | Wait1 | TestTime | CallStopper | Leave | Done

  /** What a wait reports: 0, -1 or the pid of child `i`. */
  datatype Wait = NoChange | NoChild | Of(i: nat)

  /** The statements of `child_handler`. */
  datatype ReaperPc = Poll | Compare0(w: Wait) | Compare1(w: Wait) | Mark(i: nat) | Raise | Cancel

  /** A handler on the stack; `caught` tells a `stop_handler` entered by a signal from a called one. */
  datatype Frame = Stopper(stop: StopPc, caught: bool) | Alarm(alarm: AlarmPc) | Reaper(reap: ReaperPc)

  /** The interrupted handlers, innermost first. */
  datatype Stack = Empty | Push(top: Frame, below: Stack)

  /** The shared data, the children and the main program. `strays` counts the signals that `stop_threads`
    sent to a living child without an interrupt handler. */
  datatype Run = Run(mode: Mode, main: MainPc, exited: bool, ping: Child, pong: Child,
                     start: bool, stop: bool, count: nat, inInterrupt: nat,
                     chldOn: bool, intOn: bool, timerOn: bool, strays: nat)

  /** `visited` is `stop_handler`'s own variable; `finals` counts the outputs of the final statistics. */
  datatype State = State(run: Run, visited: nat, finals: nat, stack: Stack)

  datatype Sig = Int | Alrm | Chld

  /** Exec: the innermost handler, or the main program, executes its next statement; `w` is what a wait
    reports and `yes` the outcome of a test of the clock or of `comm_cleanup` leaving the program. */
  datatype Label = Exec(w: Wait, yes: bool) | Deliver(sig: Sig) | ChildStep(i: nat) | Dies(i: nat)

  function Get(r: Run, i: nat): Child {
    if i == 0 then r.ping else r.pong
  }

  function Set(r: Run, i: nat, c: Child): Run {
    r.(ping := if i == 0 then c else r.ping, pong := if i == 0 then r.pong else c)
  }

  predicate Init(s: State) {
    var c := Child(TestPid, Unborn, false, false, Unset, false);
    s == State(Run(s.run.mode, Spawn0, false, c, c, false, false, 0, 0, false, false, false, 0), 0, 0, Empty)
  }

  // ---- waiting ----

  /** What a wait for child `only`, or for any child, may report. */
  predicate MayReport(r: Run, any: bool, only: nat, w: Wait) {
    match w
    case Of(i) => i < 2 && (any || i == only) && Get(r, i).life == Zombie
    case NoChange =>
      if any then
        && (r.ping.life == Alive || r.pong.life == Alive)
        && r.ping.life != Zombie && r.pong.life != Zombie
      else Get(r, only).life == Alive
    case NoChild =>
      if any then (r.ping.life == Unborn || r.ping.life == Reaped) && (r.pong.life == Unborn || r.pong.life == Reaped)
      else Get(r, only).life == Unborn || Get(r, only).life == Reaped
  }

  function Reap(r: Run, w: Wait): Run {
    if w.Of? then Set(r, w.i, Get(r, w.i).(life := Reaped)) else r
  }

  /** The handler compares a wait's number with a recorded pid; the number 0 equals an unset one. */
  predicate Equal(w: Wait, i: nat, pid: Cell) {
    match w case Of(j) => i == j && pid == Real case NoChange => pid == Unset case NoChild => pid == Gone
  }

  // ---- the main program ----

  // The functions below say, for each statement, which variables it writes; the `Next` functions say
  // where the program or handler goes on.

  function MainChild(c: Child, spawns: bool, records: bool): Child {
    if spawns then c.(life := Alive) else if records then c.(pid := Real) else c
  }

  function MainExec(r: Run, yes: bool): Run {
    r.(ping := MainChild(r.ping, r.main == Spawn0, r.main == Record0),
       pong := MainChild(r.pong, r.main == Spawn1, r.main == Record1),
       chldOn := r.chldOn || r.main == CatchChld,
       stop := r.stop && r.main != ClearStop,
       intOn := r.intOn || r.main == CatchInt,
       timerOn := if r.main == SetTimer then yes else r.timerOn,
       start := r.start || r.main == SetStart,
       exited := r.exited || r.main == Return,
       main := MainNext(r))
  }

  function MainNext(r: Run): MainPc {
    match r.main
    case Spawn0 => if r.mode == Fork then Record0 else Spawn1
    case Record0 => Spawn1
    case Spawn1 => if r.mode == Fork then Record1 else CatchChld
    case Record1 => CatchChld
    case CatchChld => ClearStop
    case ClearStop => CatchInt
    case CatchInt => TestReady0
    case TestReady0 => if r.ping.ready then TestReady1 else TestReady0
    case TestReady1 => if r.pong.ready then SetTimer else TestReady0
    case SetTimer => SetStart
    case SetStart => Begin
    case Begin => TestStop
    case TestStop => if r.stop then CallStop else TestStop
    case CallStop => Return
    case Return => Return
  }

  // ---- stop_handler ----

  /** `send_sig` reaches only recorded pids; a child without the handler is killed by it. */
  predicate Unprepared(c: Child) {
    c.pid == Real && c.life == Alive && !c.intr
  }

  function Killed(c: Child): Child {
    if Unprepared(c) then c.(life := Zombie) else c
  }

  function StopExec(r: Run, pc: StopPc, yes: bool): Run {
    r.(timerOn := r.timerOn && pc != StopTimer,
       stop := r.stop || pc == RaiseStop,
       ping := if pc == Kill0 then Killed(r.ping) else r.ping,
       pong := if pc == Kill1 then Killed(r.pong) else r.pong,
       strays := r.strays + if (pc == Kill0 && Unprepared(r.ping)) || (pc == Kill1 && Unprepared(r.pong)) then 1 else 0,
       exited := r.exited || pc == Exit || (pc == Cleanup && yes))
  }

  function StopNext(r: Run, visited: nat, pc: StopPc): StopPc {
    match pc
    case TestVisited => if visited > 0 then Again else Visit
    case Visit => StopTimer
    case StopTimer => RaiseStop
    case RaiseStop => Kill0
    case Kill0 => Kill1
    case Kill1 => TestPid0
    case TestPid0 => if r.ping.pid != Gone then TestPid0 else TestPid1
    case TestPid1 => if r.pong.pid != Gone then TestPid0 else Cleanup
    case Cleanup => Final
    case Final => Exit
    case Exit => Exit
    case Again => Again
  }

  // ---- monitor_interrupt ----

  function AlarmExec(r: Run, pc: AlarmPc, w: Wait): Run {
    Reap(r, if pc == Wait0 || pc == Wait1 then w else NoChange)
    .(inInterrupt := if pc == Enter then r.inInterrupt + 1
                     else if pc == Leave && r.inInterrupt > 0 then r.inInterrupt - 1
                     else r.inInterrupt)
  }

  function AlarmNext(r: Run, pc: AlarmPc, below: Stack, yes: bool): Stack {
    match pc
    case TestIn => if r.inInterrupt > 0 then below else Push(Alarm(Enter), below)
    case Enter => Push(Alarm(Wait0), below)
    case Wait0 => Push(Alarm(Wait1), below)
    case Wait1 => Push(Alarm(TestTime), below)
    case TestTime => Push(Alarm(if yes then CallStopper else Leave), below)
    case CallStopper => Push(Stopper(TestVisited, false), Push(Alarm(Done), below))
    case Leave => below
    case Done => below
  }

  // ---- child_handler ----

  function ReaperChild(c: Child, i: nat, pc: ReaperPc, w: Wait): Child {
    if pc == Poll && w == Of(i) then c.(life := Reaped)
    else if pc == Mark(i) then c.(pid := Gone)
    else if pc == (if i == 0 then Compare0(NoChange) else Compare1(NoChange)) && c.pid == Unset then c.(blind := true)
    else c
  }

  function ReapExec(r: Run, pc: ReaperPc, w: Wait): Run {
    r.(ping := ReaperChild(r.ping, 0, pc, w),
       pong := ReaperChild(r.pong, 1, pc, w),
       stop := r.stop || pc == Raise,
       timerOn := r.timerOn && pc != Cancel)
  }

  function ReapNext(r: Run, pc: ReaperPc, below: Stack, w: Wait): Stack {
    match pc
    case Poll => if w == NoChild then below else Push(Reaper(Compare0(w)), below)
    case Compare0(v) => Push(Reaper(if Equal(v, 0, r.ping.pid) then Mark(0) else Compare1(v)), below)
    case Compare1(v) =>
      if Equal(v, 1, r.pong.pid) then Push(Reaper(Mark(1)), below)
      else if v == NoChange then below
      else Push(Reaper(Poll), below)
    case Mark(_) => Push(Reaper(Raise), below)
    case Raise => Push(Reaper(Cancel), below)
    case Cancel => Push(Reaper(Poll), below)
  }

  // ---- do_thread_work ----

  function ChildNext(pc: ChildPc, pid: Cell, start: bool): ChildPc {
    match pc
    case TestPid => if pid == Unset then WritePid else Interrupts
    case WritePid => Interrupts
    case Interrupts => CommPre
    case CommPre => SetReady
    case SetReady => AwaitStart
    case AwaitStart => if start then Loop else AwaitStart
    case Loop => Loop
  }

  function ChildDoes(c: Child, start: bool): Child {
    c.(pid := if c.pc == WritePid then Real else c.pid,
       intr := c.intr || c.pc == Interrupts,
       ready := c.ready || c.pc == SetReady,
       pc := ChildNext(c.pc, c.pid, start))
  }

  function ChildExec(r: Run, i: nat): Run {
    Set(r, i, ChildDoes(Get(r, i), r.start)).(count := if i == 0 && r.ping.pc == Loop then r.count + 1 else r.count)
  }

  // ---- the whole system ----

  /** A signal is held back while its own handler is on the stack. */
  predicate Blocked(st: Stack, sig: Sig) {
    st.Push? && (
      || Blocked(st.below, sig)
      || (match sig case Int => st.top.Stopper? && st.top.caught case Alrm => st.top.Alarm? case Chld => st.top.Reaper?))
  }

  function Handler(sig: Sig): Frame {
    match sig case Int => Stopper(TestVisited, true) case Alrm => Alarm(TestIn) case Chld => Reaper(Poll)
  }

  predicate Caught(r: Run, sig: Sig) {
    match sig case Int => r.intOn case Alrm => r.timerOn case Chld => r.chldOn
  }

  predicate Enabled(s: State, l: Label) {
    && !s.run.exited
    && match l
       case Exec(w, _) => (
         match s.stack
         case Push(Reaper(Poll), _) => MayReport(s.run, true, 0, w)
         case Push(Alarm(Wait0), _) => MayReport(s.run, s.run.ping.pid != Real, 0, w)
         case Push(Alarm(Wait1), _) => MayReport(s.run, s.run.pong.pid != Real, 1, w)
         case _ => true)
       case Deliver(sig) => Caught(s.run, sig) && !Blocked(s.stack, sig)
       case ChildStep(i) => i < 2 && Get(s.run, i).life == Alive
       case Dies(i) => i < 2 && Get(s.run, i).life == Alive
  }

  function Exec1(s: State, w: Wait, yes: bool): State {
    var r := s.run;
    match s.stack
    case Empty =>
      s.(run := MainExec(r, yes), stack := if r.main == CallStop then Push(Stopper(TestVisited, false), Empty) else Empty)
    case Push(Stopper(pc, caught), below) =>
      State(StopExec(r, pc, yes),
            if pc == Visit then s.visited + 1 else s.visited,
            if pc == Final then s.finals + 1 else s.finals,
            if pc == Again then below else Push(Stopper(StopNext(r, s.visited, pc), caught), below))
    case Push(Alarm(pc), below) => s.(run := AlarmExec(r, pc, w), stack := AlarmNext(r, pc, below, yes))
    case Push(Reaper(pc), below) => s.(run := ReapExec(r, pc, w), stack := ReapNext(r, pc, below, w))
  }

  function After(s: State, l: Label): State {
    match l
    case Exec(w, yes) => Exec1(s, w, yes)
    case Deliver(sig) => s.(stack := Push(Handler(sig), s.stack))
    case ChildStep(i) => s.(run := ChildExec(s.run, i))
    case Dies(i) => s.(run := Set(s.run, i, Get(s.run, i).(life := Zombie)))
  }

  predicate Step(s: State, l: Label, s': State) {
    Enabled(s, l) && s' == After(s, l)
  }
}
