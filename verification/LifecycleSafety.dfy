/** What every run of the life cycle keeps, and which of the expected properties fail in which mode. */
module LifecycleSafety {
  import opened Runs
  import opened Lifecycle

  // ---- the children and the start ----

  /** A child is known to be dead, or was marked on the strength of a wait that named no child. */
  predicate Dead(c: Child) {
    c.life == Reaped || c.blind
  }

  predicate Marked(c: Child) {
    c.pid == Gone || c.blind
  }

  predicate ChildOk(c: Child, start: bool) {
    && (c.pc != TestPid && c.pc != WritePid ==> c.pid != Unset)
    && (c.intr <==> c.pc != TestPid && c.pc != WritePid && c.pc != Interrupts)
    && (c.ready <==> c.pc == AwaitStart || c.pc == Loop)
    && (c.pc == Loop ==> start)
    && (c.life == Unborn ==> c.pc == TestPid && c.pid == Unset)
    && (c.pid == Gone ==> Dead(c))
  }

  /** How far the monitor has come: the order of its statements. */
  function Progress(m: MainPc): nat {
    match m
    case Spawn0 => 0 case Record0 => 1 case Spawn1 => 2 case Record1 => 3 case CatchChld => 4 case ClearStop => 5
    case CatchInt => 6 case TestReady0 => 7 case TestReady1 => 8 case SetTimer => 9 case SetStart => 10 case Begin => 11
    case TestStop => 12 case CallStop => 13 case Return => 14
  }

  /** What the monitor may rely on about a child it has spawned, recorded, or seen ready. */
  predicate Relied(c: Child, mode: Mode, spawned: bool, recorded: bool, seen: bool, chldOn: bool) {
    && (spawned <==> c.life != Unborn)
    && (mode == Fork && recorded ==> c.pid != Unset)
    && (seen ==> c.ready)
    && (!chldOn ==> !Dead(c))
    && (mode == Fork ==> !c.blind)
  }

  /** What holds when the main program has come as far as `p`. */
  predicate MainAt(r: Run, p: nat) {
    && Relied(r.ping, r.mode, p > 0, p > 1, p > 7, r.chldOn)
    && Relied(r.pong, r.mode, p > 2, p > 3, p > 8, r.chldOn)
    && (r.mode == Clone ==> p != 1 && p != 3)
    && (r.chldOn <==> p > 4)
    && (r.timerOn ==> r.chldOn)
    && (r.start <==> p > 10)
    && (r.count > 0 ==> r.start)
  }

  predicate MainOk(r: Run) {
    MainAt(r, Progress(r.main))
  }

  // ---- the handlers ----

  /** What the monitor knows at a statement of a handler. */
  predicate FrameOk(f: Frame, r: Run) {
    match f
    case Stopper(stop, _) =>
      && (stop == TestPid1 || stop == Cleanup || stop == Final || stop == Exit ==> Marked(r.ping))
      && (stop == Cleanup || stop == Final || stop == Exit ==> Marked(r.pong))
    case Alarm(_) => r.chldOn
    case Reaper(reap) =>
      && r.chldOn
      && match reap
         case Compare0(w) => w.Of? ==> w.i < 2 && Get(r, w.i).life == Reaped
         case Compare1(w) => w.Of? ==> w.i < 2 && Get(r, w.i).life == Reaped
         case Mark(i) => i < 2 && Dead(Get(r, i))
         case _ => true
  }

  predicate FramesOk(st: Stack, r: Run) {
    st.Push? ==> FrameOk(st.top, r) && FramesOk(st.below, r)
  }

  predicate RunOk(r: Run) {
    ChildOk(r.ping, r.start) && ChildOk(r.pong, r.start) && MainOk(r)
  }

  predicate Inv(s: State) {
    RunOk(s.run) && FramesOk(s.stack, s.run)
  }

  predicate ChildLater(c: Child, c': Child) {
    && (c.life == Reaped ==> c'.life == Reaped)
    && (c.blind ==> c'.blind)
    && (Marked(c) ==> Marked(c'))
  }

  /** What the monitor has learnt about the children stays true. */
  predicate Later(r: Run, r': Run) {
    ChildLater(r.ping, r'.ping) && ChildLater(r.pong, r'.pong) && (r.chldOn ==> r'.chldOn)
  }

  lemma {:induction false} FramesLater(st: Stack, r: Run, r': Run)
    requires FramesOk(st, r) && Later(r, r')
    ensures FramesOk(st, r')
  {
    if st.Push? {
      FramesLater(st.below, r, r');
    }
  }

  lemma SpawnKeeps(r: Run, yes: bool)
    requires RunOk(r) && (r.main == Spawn0 || r.main == Spawn1)
    ensures RunOk(MainExec(r, yes)) && Later(r, MainExec(r, yes))
  {
  }

  lemma RecordKeeps(r: Run, yes: bool)
    requires RunOk(r) && (r.main == Record0 || r.main == Record1)
    ensures RunOk(MainExec(r, yes)) && Later(r, MainExec(r, yes))
  {
  }

  /** The later statements leave the children alone. */
  lemma AdvanceKeeps(r: Run, r': Run, p: nat, p': nat)
    requires MainAt(r, p) && p >= 4 && p' >= 4
    requires r'.mode == r.mode && r'.ping == r.ping && r'.pong == r.pong && r'.count == r.count
    requires r'.start == (p' > 10) && r'.chldOn == (p' > 4) && (r'.timerOn ==> r.timerOn || p' > 4)
    requires r.chldOn ==> r'.chldOn
    requires (p' > 7 ==> p > 7 || r.ping.ready) && (p' > 8 ==> p > 8 || r.pong.ready)
    requires r.start ==> r'.start
    ensures MainAt(r', p')
  {
  }

  lemma AdvancedOk(r: Run, r': Run, p: nat, p': nat)
    requires RunOk(r) && p == Progress(r.main) && p' == Progress(r'.main)
    requires MainAt(r', p') && r'.ping == r.ping && r'.pong == r.pong
    requires (r.start ==> r'.start) && (r.chldOn ==> r'.chldOn)
    ensures RunOk(r') && Later(r, r')
  {
  }

  lemma MainKeeps(r: Run, yes: bool)
    requires RunOk(r)
    ensures RunOk(MainExec(r, yes)) && Later(r, MainExec(r, yes))
  {
    var r' := MainExec(r, yes);
    if r.main == Spawn0 || r.main == Spawn1 {
      SpawnKeeps(r, yes);
    } else if r.main == Record0 || r.main == Record1 {
      RecordKeeps(r, yes);
    } else {
      var (p, p') := match r.main
        case CatchChld => (4, 5)
        case ClearStop => (5, 6)
        case CatchInt => (6, 7)
        case TestReady0 => (7, if r.ping.ready then 8 else 7)
        case TestReady1 => (8, if r.pong.ready then 9 else 7)
        case SetTimer => (9, 10)
        case SetStart => (10, 11)
        case Begin => (11, 12)
        case TestStop => (12, if r.stop then 13 else 12)
        case CallStop => (13, 14)
        case _ => (14, 14);
      assert p == Progress(r.main) && p' == Progress(r'.main);
      AdvanceKeeps(r, r', p, p');
      AdvancedOk(r, r', p, p');
    }
  }

  /** A change of child `i` that the monitor can live with. */
  predicate Allowed(r: Run, c: Child, c': Child) {
    && ChildOk(c', r.start) && ChildLater(c, c')
    && (c.life == Unborn <==> c'.life == Unborn)
    && (c.pid != Unset ==> c'.pid != Unset)
    && (c.ready ==> c'.ready)
    && (Dead(c') ==> Dead(c) || r.chldOn)
    && (c'.blind ==> c.blind || r.mode == Clone)
  }

  lemma SetAt(r: Run, i: nat, c': Child, p: nat)
    requires MainAt(r, p) && Allowed(r, Get(r, i), c')
    ensures MainAt(Set(r, i, c'), p)
  {
    if i == 0 {
      assert Relied(c', r.mode, p > 0, p > 1, p > 7, r.chldOn);
    } else {
      assert Relied(c', r.mode, p > 2, p > 3, p > 8, r.chldOn);
    }
  }

  lemma SetKeeps(r: Run, i: nat, c': Child)
    requires RunOk(r) && Allowed(r, Get(r, i), c')
    ensures RunOk(Set(r, i, c')) && Later(r, Set(r, i, c'))
  {
    SetAt(r, i, c', Progress(r.main));
  }

  lemma StopKeeps(r: Run, pc: StopPc, yes: bool)
    requires RunOk(r)
    ensures RunOk(StopExec(r, pc, yes)) && Later(r, StopExec(r, pc, yes))
  {
  }

  lemma ReapedKeeps(r: Run, w: Wait)
    requires RunOk(r) && r.chldOn && (w.Of? ==> w.i < 2 && Get(r, w.i).life == Zombie)
    ensures RunOk(Reap(r, w)) && Later(r, Reap(r, w))
  {
    if w.Of? {
      SetKeeps(r, w.i, Get(r, w.i).(life := Reaped));
    }
  }

  lemma AlarmKeeps(r: Run, pc: AlarmPc, w: Wait)
    requires RunOk(r) && r.chldOn && (pc == Wait0 || pc == Wait1 ==> w.Of? ==> w.i < 2 && Get(r, w.i).life == Zombie)
    ensures RunOk(AlarmExec(r, pc, w)) && Later(r, AlarmExec(r, pc, w))
  {
    if pc == Wait0 || pc == Wait1 {
      ReapedKeeps(r, w);
    }
  }

  function Compared(c: Child, v: Wait): Child {
    if c.pid == Unset && v == NoChange then c.(blind := true) else c
  }

  /** Each statement of the reaper changes at most one child. */
  lemma ReapedOne(r: Run, i: nat, v: Wait, w: Wait)
    requires i < 2
    ensures ReapExec(r, if i == 0 then Compare0(v) else Compare1(v), w) == Set(r, i, Compared(Get(r, i), v))
    ensures ReapExec(r, Mark(i), w) == Set(r, i, Get(r, i).(pid := Gone))
    ensures w == Of(i) ==> ReapExec(r, Poll, w) == Reap(r, w)
  {
  }

  /** A comparison can only be blind while the pid is unset, which a forking monitor does not see. */
  lemma CompareKeeps(r: Run, i: nat, v: Wait)
    requires RunOk(r) && r.chldOn && i < 2
    ensures var r' := Set(r, i, Compared(Get(r, i), v)); RunOk(r') && Later(r, r')
  {
    var c := Get(r, i);
    if c.pid == Unset && v == NoChange {
      assert r.mode == Clone;
    }
    SetKeeps(r, i, Compared(c, v));
  }

  lemma CancelKeeps(r: Run, pc: ReaperPc, w: Wait)
    requires RunOk(r) && (pc == Raise || pc == Cancel)
    ensures RunOk(ReapExec(r, pc, w)) && Later(r, ReapExec(r, pc, w))
  {
    assert ReapExec(r, pc, w).ping == r.ping && ReapExec(r, pc, w).pong == r.pong;
  }

  lemma ReapKeeps(r: Run, pc: ReaperPc, w: Wait)
    requires RunOk(r) && FrameOk(Reaper(pc), r) && (pc == Poll ==> w.Of? ==> w.i < 2 && Get(r, w.i).life == Zombie)
    ensures RunOk(ReapExec(r, pc, w)) && Later(r, ReapExec(r, pc, w))
  {
    match pc {
      case Poll =>
        ReapedKeeps(r, w);
        if w.Of? {
          ReapedOne(r, w.i, NoChange, w);
        }
      case Compare0(v) =>
        CompareKeeps(r, 0, v);
        ReapedOne(r, 0, v, w);
      case Compare1(v) =>
        CompareKeeps(r, 1, v);
        ReapedOne(r, 1, v, w);
      case Mark(i) =>
        SetKeeps(r, i, Get(r, i).(pid := Gone));
        ReapedOne(r, i, NoChange, w);
      case _ => CancelKeeps(r, pc, w);
    }
  }

  lemma ChildKeeps(r: Run, i: nat)
    requires RunOk(r) && i < 2 && Get(r, i).life == Alive
    ensures RunOk(ChildExec(r, i)) && Later(r, ChildExec(r, i))
  {
    assert Allowed(r, Get(r, i), ChildDoes(Get(r, i), r.start));
    SetKeeps(r, i, ChildDoes(Get(r, i), r.start));
    CountKeeps(Set(r, i, ChildDoes(Get(r, i), r.start)));
  }

  lemma CountKeeps(r: Run)
    requires RunOk(r)
    ensures r.start ==> var r' := r.(count := r.count + 1); RunOk(r') && Later(r, r')
  {
  }

  lemma DiesKeeps(r: Run, i: nat)
    requires RunOk(r) && i < 2 && Get(r, i).life == Alive
    ensures var r' := Set(r, i, Get(r, i).(life := Zombie)); RunOk(r') && Later(r, r')
  {
    SetKeeps(r, i, Get(r, i).(life := Zombie));
  }

  // ---- the frames ----

  lemma StopFrame(r: Run, visited: nat, pc: StopPc, caught: bool, yes: bool)
    requires FrameOk(Stopper(pc, caught), r)
    ensures FrameOk(Stopper(StopNext(r, visited, pc), caught), StopExec(r, pc, yes))
  {
  }

  lemma AlarmFrames(r: Run, pc: AlarmPc, below: Stack, w: Wait, yes: bool)
    requires FrameOk(Alarm(pc), r) && FramesOk(below, AlarmExec(r, pc, w)) && AlarmExec(r, pc, w).chldOn
    ensures FramesOk(AlarmNext(r, pc, below, yes), AlarmExec(r, pc, w))
  {
    var r' := AlarmExec(r, pc, w);
    assert FrameOk(Alarm(Done), r');
  }

  lemma ReapFrame(r: Run, pc: ReaperPc, w: Wait)
    requires FrameOk(Reaper(pc), r) && ReapExec(r, pc, w).chldOn
    requires RunOk(r) && (pc == Poll ==> w.Of? ==> w.i < 2)
    ensures var next := ReapNext(r, pc, Empty, w);
            next.Push? ==> next.below == Empty && FrameOk(next.top, ReapExec(r, pc, w))
  {
    match pc {
      case Poll =>
        assert w.Of? ==> Get(ReapExec(r, pc, w), w.i).life == Reaped;
      case Compare0(v) =>
        assert Equal(v, 0, r.ping.pid) ==> Dead(ReapExec(r, pc, w).ping);
      case Compare1(v) =>
        assert Equal(v, 1, r.pong.pid) ==> Dead(ReapExec(r, pc, w).pong);
      case _ =>
    }
  }

  lemma ReapFrames(r: Run, pc: ReaperPc, below: Stack, w: Wait)
    requires FrameOk(Reaper(pc), r) && FramesOk(below, ReapExec(r, pc, w)) && ReapExec(r, pc, w).chldOn
    requires RunOk(r) && (pc == Poll ==> w.Of? ==> w.i < 2)
    ensures FramesOk(ReapNext(r, pc, below, w), ReapExec(r, pc, w))
  {
    ReapFrame(r, pc, w);
    var (next, alone) := (ReapNext(r, pc, below, w), ReapNext(r, pc, Empty, w));
    assert next == if alone == Empty then below else Push(alone.top, below);
  }

  lemma ExecKeeps(s: State, w: Wait, yes: bool)
    requires Inv(s) && Enabled(s, Exec(w, yes))
    ensures var s' := Exec1(s, w, yes); Inv(s') && Later(s.run, s'.run)
  {
    var r := s.run;
    match s.stack {
      case Empty => MainKeeps(r, yes);
      case Push(f, below) =>
        match f {
          case Stopper(pc, caught) =>
            StopKeeps(r, pc, yes);
            FramesLater(below, r, StopExec(r, pc, yes));
            StopFrame(r, s.visited, pc, caught, yes);
          case Alarm(pc) =>
            AlarmKeeps(r, pc, w);
            FramesLater(below, r, AlarmExec(r, pc, w));
            AlarmFrames(r, pc, below, w, yes);
          case Reaper(pc) =>
            ReapKeeps(r, pc, w);
            FramesLater(below, r, ReapExec(r, pc, w));
            ReapFrames(r, pc, below, w);
        }
    }
  }

  lemma StepKeeps(s: State, l: Label, s': State)
    requires Inv(s) && Step(s, l, s')
    ensures Inv(s') && Later(s.run, s'.run)
  {
    match l {
      case Exec(w, yes) => ExecKeeps(s, w, yes);
      case Deliver(sig) =>
      case ChildStep(i) =>
        ChildKeeps(s.run, i);
        FramesLater(s.stack, s.run, s'.run);
      case Dies(i) =>
        DiesKeeps(s.run, i);
        FramesLater(s.stack, s.run, s'.run);
    }
  }

  // ---- at most one stop ----

  /** A `stop_handler` that has passed the test of `visited`, and one that has incremented it. */
  predicate Passed(f: Frame) {
    f.Stopper? && f.stop != TestVisited && f.stop != Again
  }

  predicate Committed(f: Frame) {
    Passed(f) && f.stop != Visit
  }

  predicate AnyCommitted(st: Stack) {
    st.Push? && (Committed(st.top) || AnyCommitted(st.below))
  }

  predicate AnyFinished(st: Stack) {
    st.Push? && ((st.top.Stopper? && st.top.stop == Exit) || AnyFinished(st.below))
  }

  /** On top of a committed handler no other one has passed the test. */
  predicate Ordered(st: Stack) {
    st.Push? ==> Ordered(st.below) && (AnyCommitted(st.below) ==> !Passed(st.top))
  }

  predicate OneStop(s: State) {
    && Ordered(s.stack)
    && s.visited == (if AnyCommitted(s.stack) then 1 else 0)
    && s.finals == (if AnyFinished(s.stack) then 1 else 0)
  }

  lemma FinishedIsCommitted(st: Stack)
    requires AnyFinished(st)
    ensures AnyCommitted(st)
  {
  }

  lemma StopKeepsOne(s: State, yes: bool)
    requires OneStop(s) && s.stack.Push? && s.stack.top.Stopper? && Enabled(s, Exec(NoChild, yes))
    ensures OneStop(Exec1(s, NoChild, yes))
  {
    if AnyFinished(s.stack.below) {
      FinishedIsCommitted(s.stack.below);
    }
  }

  /** The other handlers leave passed and committed ones as they are. */
  predicate Quiet(st: Stack, st': Stack) {
    && AnyCommitted(st') == AnyCommitted(st) && AnyFinished(st') == AnyFinished(st)
    && (Ordered(st) ==> Ordered(st'))
  }

  lemma AlarmIsQuiet(r: Run, pc: AlarmPc, below: Stack, yes: bool)
    ensures Quiet(Push(Alarm(pc), below), AlarmNext(r, pc, below, yes))
  {
    assert !Passed(Alarm(Done)) && !Passed(Stopper(TestVisited, false));
  }

  lemma ReaperIsQuiet(r: Run, pc: ReaperPc, below: Stack, w: Wait)
    ensures Quiet(Push(Reaper(pc), below), ReapNext(r, pc, below, w))
  {
  }

  lemma StepKeepsOne(s: State, l: Label, s': State)
    requires OneStop(s) && Step(s, l, s')
    ensures OneStop(s')
  {
    match l {
      case Exec(w, yes) =>
        if s.stack.Push? && s.stack.top.Stopper? {
          StopKeepsOne(s, yes);
        } else {
          match s.stack {
            case Push(Alarm(pc), below) => AlarmIsQuiet(s.run, pc, below, yes);
            case Push(Reaper(pc), below) => ReaperIsQuiet(s.run, pc, below, w);
            case _ =>
          }
        }
      case _ =>
    }
  }

  // ---- what every reachable state satisfies ----

  lemma ReachableInv(s: State)
    requires Reachable(Init, Step, s)
    ensures Inv(s)
  {
    forall s, l, s' | Inv(s) && Step(s, l, s') ensures Inv(s') {
      StepKeeps(s, l, s');
    }
    ReachableKeeps(Init, Step, Inv, s);
  }

  lemma ReachableOneStop(s: State)
    requires Reachable(Init, Step, s)
    ensures OneStop(s)
  {
    forall s, l, s' | OneStop(s) && Step(s, l, s') ensures OneStop(s') {
      StepKeepsOne(s, l, s');
    }
    ReachableKeeps(Init, Step, OneStop, s);
  }

  lemma {:induction false} FinishedFrame(st: Stack, r: Run)
    requires FramesOk(st, r) && AnyFinished(st)
    ensures Marked(r.ping) && Marked(r.pong)
  {
    if !(st.top.Stopper? && st.top.stop == Exit) {
      FinishedFrame(st.below, r);
    }
  }

  // ---- who strays, who is marked blindly ----

  /** No blind mark is made and no signal strays. */
  predicate Left(r: Run, r': Run) {
    r'.ping.blind == r.ping.blind && r'.pong.blind == r.pong.blind && r'.strays == r.strays
  }

  lemma MainLeaves(r: Run, yes: bool)
    ensures Left(r, MainExec(r, yes))
  {
  }

  lemma StopLeaves(r: Run, pc: StopPc, yes: bool)
    ensures var r' := StopExec(r, pc, yes);
            Left(r, r'.(strays := r.strays)) && (!Unprepared(r.ping) && !Unprepared(r.pong) ==> Left(r, r'))
  {
  }

  lemma AlarmLeaves(r: Run, pc: AlarmPc, w: Wait)
    ensures Left(r, AlarmExec(r, pc, w))
  {
  }

  lemma ReapLeaves(r: Run, pc: ReaperPc, w: Wait)
    ensures var r' := ReapExec(r, pc, w);
            && r'.strays == r.strays
            && (r'.ping.blind <==> r.ping.blind || (pc == Compare0(NoChange) && r.ping.pid == Unset))
            && (r'.pong.blind <==> r.pong.blind || (pc == Compare1(NoChange) && r.pong.pid == Unset))
  {
  }

  lemma ChildLeaves(r: Run, i: nat)
    ensures Left(r, ChildExec(r, i))
  {
  }

  /** A blind mark is made exactly where the number 0, reported for "no child has died", meets a pid that
    is still 0; a signal strays only when it is sent to an unprepared child. */
  lemma Leaves(s: State, l: Label, s': State)
    requires Step(s, l, s')
    ensures s'.run.ping.blind <==> s.run.ping.blind || ComparesUnset(s, l, 0)
    ensures s'.run.pong.blind <==> s.run.pong.blind || ComparesUnset(s, l, 1)
    ensures !Unprepared(s.run.ping) && !Unprepared(s.run.pong) ==> s'.run.strays == s.run.strays
  {
    match l {
      case Exec(w, yes) =>
        match s.stack {
          case Empty => MainLeaves(s.run, yes);
          case Push(Stopper(pc, _), _) => StopLeaves(s.run, pc, yes);
          case Push(Alarm(pc), _) => AlarmLeaves(s.run, pc, w);
          case Push(Reaper(pc), _) => ReapLeaves(s.run, pc, w);
        }
      case ChildStep(i) => ChildLeaves(s.run, i);
      case _ =>
    }
  }

  predicate ComparesUnset(s: State, l: Label, i: nat) {
    && l.Exec? && s.stack.Push?
    && s.stack.top == Reaper(if i == 0 then Compare0(NoChange) else Compare1(NoChange))
    && Get(s.run, i).pid == Unset
  }

  // ---- main results ----

  /** Nothing is counted before the start, the start follows both readinesses, and a ready child has its
    handler installed and a pid that is no longer 0, though it may be -1; so once started `stop_threads` hits
    no unprepared child. */
  lemma StartIsSafe(s: State, l: Label, s': State)
    requires Reachable(Init, Step, s) && Step(s, l, s')
    ensures s.run.count > 0 ==> s.run.start
    ensures s.run.start ==> s.run.ping.ready && s.run.pong.ready
    ensures forall i :: 0 <= i < 2 && Get(s.run, i).ready ==> Get(s.run, i).intr && Get(s.run, i).pid != Unset
    ensures s.run.start ==> s'.run.start && s'.run.strays == s.run.strays
  {
    ReachableInv(s);
    StepKeeps(s, l, s');
    assert ChildOk(s.run.ping, s.run.start) && ChildOk(s.run.pong, s.run.start);
    if s.run.start {
      Leaves(s, l, s');
    }
  }

  predicate AtKill(s: State, i: nat) {
    s.stack.Push? && s.stack.top.Stopper? && s.stack.top.stop == if i == 0 then Kill0 else Kill1
  }

  /** However the handlers interrupt each other, and although testing and incrementing `visited` are two
    statements, at most one `stop_handler` gets past them and the final statistics come out at most once;
    and then both pids were -1 of children really reaped, unless one was marked blindly. */
  lemma OneFinal(s: State)
    requires Reachable(Init, Step, s)
    ensures s.finals <= s.visited <= 1
    ensures s.finals == 1 && !s.run.ping.blind && !s.run.pong.blind ==>
              && s.run.ping.pid == s.run.pong.pid == Gone
              && s.run.ping.life == s.run.pong.life == Reaped
  {
    ReachableInv(s);
    ReachableOneStop(s);
    if s.finals == 1 {
      FinishedFrame(s.stack, s.run);
      FinishedIsCommitted(s.stack);
    }
  }
}
