/** The signal loops together with the start of the threads: a signal that arrives before its handler
  is installed would kill the receiver, one that arrives while the flag is still set would be forgotten,
  and one sent to a pid that is not recorded vanishes. The last does happen: the monitor can mark a cloned
  child dead, with a pid of -1, before the child records its own. */
module SignalMode {
  import opened Runs
  import Whole = Lifecycle

  /** A thread's statements: its preparation, then its loop (ping starts at Bump, pong at Poll). */
  datatype Pc = Unborn | TestPid | WritePid | Interrupts | CommPre | SetReady | AwaitStart | Bump | Send | Poll | Clear

  /** `caught` says the handler is installed, `flag` is the thread's entry of `signal_received`. */
  datatype Thread = Thread(pc: Pc, pid: Whole.Cell, caught: bool, ready: bool, pending: nat, flag: bool, killed: bool)

  datatype Who = Ping' | Pong'

  /** The monitor's statements from the start of the children to the start of the exchange. */
  datatype Monitor =
    | Spawn0 | Record0 | Spawn1 | Record1 | CatchChld | ClearStop | TestReady0 | TestReady1 | SetStart | Started

  /** Where `child_handler` is, on top of the monitor: about to mark a child, or to raise `stop`. */
  datatype Reaper = Idle | Marking(who: Who) | Raising

  /** `forgotten` counts the signals that had no effect on their receiver. */
  datatype State = State(mode: Whole.Mode, ping: Thread, pong: Thread, monitor: Monitor, reaper: Reaper,
                         start: bool, stop: bool, count: nat, replies: nat, forgotten: nat)

  /** Prepare: a thread's next statement before the start; Enters: it finds `start` set. Monitors: the
    monitor's next statement but for its tests of `ready`, which it Finds set or not. Compares: a wait of
    `child_handler` has reported 0, which equals a pid not yet recorded. Marks, Raises: what it does then.
    Misses: a poll that finds the flag clear. */
  datatype Label =
    | Prepare(who: Who) | Enters(who: Who) | Monitors | Finds | FindsNot | Compares(who: Who) | Marks | Raises
    | Increment | Sends(who: Who) | Delivers(who: Who) | Sees(who: Who) | Misses(who: Who) | Clears(who: Who)

  function Get(s: State, who: Who): Thread {
    if who == Ping' then s.ping else s.pong
  }

  function Set(s: State, who: Who, t: Thread): State {
    if who == Ping' then s.(ping := t) else s.(pong := t)
  }

  function Other(who: Who): Who {
    if who == Ping' then Pong' else Ping'
  }

  predicate Early(pc: Pc) {
    pc == TestPid || pc == WritePid || pc == Interrupts || pc == CommPre || pc == SetReady
  }

  predicate Preparing(pc: Pc) {
    pc == Unborn || Early(pc) || pc == AwaitStart
  }

  const NEWBORN := Thread(Unborn, Whole.Unset, false, false, 0, false, false)

  predicate Init(s: State) {
    s == State(s.mode, NEWBORN, NEWBORN, Spawn0, Idle, false, false, 0, 0, 0)
  }

  /** A thread records its pid unless the entry is set, installs its handlers and says that it is ready. */
  function Prepared(t: Thread): Thread {
    t.(pid := if t.pc == WritePid then Whole.Real else t.pid,
       caught := t.caught || t.pc == CommPre,
       ready := t.ready || t.pc == SetReady,
       pc := match t.pc
             case TestPid => if t.pid == Whole.Unset then WritePid else Interrupts
             case WritePid => Interrupts
             case Interrupts => CommPre
             case CommPre => SetReady
             case SetReady => AwaitStart
             case _ => t.pc)
  }

  function Entered(t: Thread, who: Who): Thread {
    t.(pc := if who == Ping' then Bump else Poll)
  }

  function MonitorNext(s: State): Monitor {
    match s.monitor
    case Spawn0 => if s.mode == Whole.Fork then Record0 else Spawn1
    case Record0 => Spawn1
    case Spawn1 => if s.mode == Whole.Fork then Record1 else CatchChld
    case Record1 => CatchChld
    case CatchChld => ClearStop
    case ClearStop => TestReady0
    case SetStart => Started
    case other => other
  }

  /** The parent lets a thread be born, and records the pid of a forked one. */
  function Parented(t: Thread, spawns: bool, records: bool): Thread {
    t.(pc := if spawns then TestPid else t.pc, pid := if records then Whole.Real else t.pid)
  }

  function Monitored(s: State): State {
    s.(ping := Parented(s.ping, s.monitor == Spawn0, s.monitor == Record0),
       pong := Parented(s.pong, s.monitor == Spawn1, s.monitor == Record1),
       stop := s.stop && s.monitor != ClearStop,
       start := s.start || s.monitor == SetStart,
       monitor := MonitorNext(s))
  }

  /** `send_sig` does nothing for a pid that is not recorded. */
  function Signalled(s: State, who: Who): State {
    var t := Get(s, who);
    if t.pid == Whole.Real then Set(s, who, t.(pending := t.pending + 1)) else s.(forgotten := s.forgotten + 1)
  }

  /** A pending signal reaches thread `who` between any two of its statements. */
  function Delivered(s: State, who: Who): State
    requires Get(s, who).pending > 0
  {
    var t := Get(s, who).(pending := Get(s, who).pending - 1);
    if !t.caught then Set(s, who, t.(killed := true))
    else Set(s, who, t.(flag := true)).(forgotten := s.forgotten + if t.flag then 1 else 0)
  }

  /** The handler of SIGCHLD is installed. */
  predicate Watching(m: Monitor) {
    m == ClearStop || m == TestReady0 || m == TestReady1 || m == SetStart || m == Started
  }

  predicate Enabled(s: State, l: Label) {
    match l
    case Prepare(who) => Early(Get(s, who).pc)
    case Enters(who) => Get(s, who).pc == AwaitStart && s.start
    case Monitors => s.reaper == Idle && s.monitor != TestReady0 && s.monitor != TestReady1 && s.monitor != Started
    case Finds =>
      s.reaper == Idle && ((s.monitor == TestReady0 && s.ping.ready) || (s.monitor == TestReady1 && s.pong.ready))
    case FindsNot =>
      s.reaper == Idle && ((s.monitor == TestReady0 && !s.ping.ready) || (s.monitor == TestReady1 && !s.pong.ready))
    case Compares(who) =>
      && s.reaper == Idle && Watching(s.monitor) && Get(s, who).pid == Whole.Unset
      && (who == Pong' ==> s.ping.pid != Whole.Unset)
    case Marks => s.reaper.Marking?
    case Raises => s.reaper == Raising
    case Increment => s.ping.pc == Bump
    case Sends(who) => Get(s, who).pc == Send
    case Delivers(who) => Get(s, who).pending > 0
    case Sees(who) => Get(s, who).pc == Poll && Get(s, who).flag
    case Misses(who) => Get(s, who).pc == Poll && !Get(s, who).flag
    case Clears(who) => Get(s, who).pc == Clear
  }

  function After(s: State, l: Label): State
    requires Enabled(s, l)
  {
    match l
    case Prepare(who) => Set(s, who, Prepared(Get(s, who)))
    case Enters(who) => Set(s, who, Entered(Get(s, who), who))
    case Monitors => Monitored(s)
    case Finds => s.(monitor := if s.monitor == TestReady0 then TestReady1 else SetStart)
    case FindsNot => s.(monitor := TestReady0)
    case Compares(who) => s.(reaper := Marking(who))
    case Marks => Set(s, s.reaper.who, Get(s, s.reaper.who).(pid := Whole.Gone)).(reaper := Raising)
    case Raises => s.(stop := true, reaper := Idle)
    case Increment => s.(count := s.count + 1, ping := s.ping.(pc := Send))
    case Sends(who) =>
      var sent := if who == Ping' then s.(ping := s.ping.(pc := Poll))
                  else s.(pong := s.pong.(pc := Poll), replies := s.replies + 1);
      Signalled(sent, Other(who))
    case Delivers(who) => Delivered(s, who)
    case Sees(who) => Set(s, who, Get(s, who).(pc := Clear))
    case Misses(_) => s
    case Clears(who) => Set(s, who, Get(s, who).(flag := false, pc := if who == Ping' then Bump else Send))
  }

  predicate Step(s: State, l: Label, s': State) {
    Enabled(s, l) && s' == After(s, l)
  }

  // ---- who can do what ----

  /** The handler of SIGCHLD is installed by one statement of the monitor, and for good. */
  lemma WatchesOnceCaught(s: State, l: Label, s': State)
    requires Step(s, l, s')
    ensures Watching(s'.monitor) <==> Watching(s.monitor) || (l == Monitors && s.monitor == CatchChld)
  {
  }

  /** A wait that names nobody can be compared with one pid only: the first that is not recorded. */
  lemma ComparesFirst(s: State, who: Who)
    ensures Enabled(s, Compares(who)) <==>
      && s.reaper == Idle && Watching(s.monitor)
      && who == (if s.ping.pid == Whole.Unset then Ping' else Pong')
      && (s.ping.pid == Whole.Unset || s.pong.pid == Whole.Unset)
  {
  }

  /** The monitor lets the threads start exactly when it finds pong ready right after ping. */
  lemma WaitsUntilReady(s: State, l: Label, s': State)
    requires Step(s, l, s') && (l == Finds || l == FindsNot)
    ensures s' == s.(monitor := s'.monitor)
    ensures s'.monitor == SetStart <==> s.monitor == TestReady1 && s.pong.ready
    ensures s'.monitor == TestReady1 <==> s.monitor == TestReady0 && s.ping.ready
    ensures s'.monitor == TestReady0 || s'.monitor == TestReady1 || s'.monitor == SetStart
  {
  }

  /** The statements of thread `who`. */
  predicate OwnStep(l: Label, who: Who) {
    match l
    case Prepare(w) => w == who case Enters(w) => w == who case Increment => who == Ping' case Sends(w) => w == who
    case Sees(w) => w == who case Misses(w) => w == who case Clears(w) => w == who
    case _ => false
  }

  /** No thread has a choice: a poll misses exactly if it cannot see the flag. */
  lemma NoChoice(s: State, who: Who, l: Label, l': Label)
    requires Enabled(s, l) && Enabled(s, l') && OwnStep(l, who) && OwnStep(l', who)
    ensures l == l'
  {
  }

  function B(b: bool): nat { if b then 1 else 0 }

  predicate AboutToSend(s: State, who: Who) {
    if who == Ping' then Preparing(s.ping.pc) || s.ping.pc == Bump || s.ping.pc == Send else s.pong.pc == Send
  }

  /** Where the turn is: with a thread about to send, in a pending signal, or in a raised flag. */
  function Tokens(s: State): nat {
    B(AboutToSend(s, Ping')) + s.pong.pending + B(s.pong.flag)
    + B(AboutToSend(s, Pong')) + s.ping.pending + B(s.ping.flag)
  }

  /** The turn is with pong, or on its way there. */
  predicate PongsTurn(s: State) {
    s.ping.pc == Send || s.pong.pending > 0 || s.pong.flag || s.pong.pc == Send
  }

  // ---- the invariant ----

  /** The preparation is in order: each fact holds from its statement on. */
  predicate InOrder(t: Thread, who: Who, start: bool) {
    && (t.pc == Unborn ==> t.pid == Whole.Unset)
    && (t.pid == Whole.Unset ==> t.pc == Unborn || t.pc == TestPid || t.pc == WritePid)
    && (t.caught <==> t.pc == SetReady || t.pc == AwaitStart || !Preparing(t.pc))
    && (t.ready <==> t.pc == AwaitStart || !Preparing(t.pc))
    && (!Preparing(t.pc) ==> start)
    && (who == Pong' ==> t.pc != Bump)
    && (t.pc == Clear ==> t.flag)
    && !t.killed
  }

  /** How far the monitor has come, and what it relies on: a forking one has recorded the pids before it
    installs its handler. */
  predicate MonitorInv(s: State) {
    && (s.start <==> s.monitor == Started)
    && (s.monitor == TestReady1 || s.monitor == SetStart || s.start ==> s.ping.ready)
    && (s.monitor == SetStart || s.start ==> s.pong.ready)
    && (s.ping.pc == Unborn <==> s.monitor == Spawn0)
    && (s.pong.pc == Unborn <==> s.monitor == Spawn0 || s.monitor == Record0 || s.monitor == Spawn1)
    && (s.reaper != Idle ==> Watching(s.monitor) && !s.start)
    && (s.mode == Whole.Fork ==>
          && s.ping.pid != Whole.Gone && s.pong.pid != Whole.Gone && s.reaper == Idle
          && (s.monitor != Spawn0 && s.monitor != Record0 ==> s.ping.pid == Whole.Real)
          && (s.monitor == CatchChld || Watching(s.monitor) ==> s.pong.pid == Whole.Real))
    && (s.mode == Whole.Clone ==> s.monitor != Record0 && s.monitor != Record1)
  }

  predicate Recorded(s: State) {
    s.ping.pid == Whole.Real && s.pong.pid == Whole.Real
  }

  /** A pid of -1 at the start: ping counts once, and the signal that meets that pid is the last. */
  predicate MarkedInv(s: State) {
    && s.count == (if Preparing(s.ping.pc) || s.ping.pc == Bump then 0 else 1)
    && s.ping.pending == 0 && !s.ping.flag
    && (s.pong.pid != Whole.Real ==> s.pong.pending == 0 && !s.pong.flag && s.pong.pc != Send && s.replies == 0)
    && (s.pong.pid == Whole.Real ==> s.forgotten == s.replies)
  }

  predicate TurnInv(s: State) {
    && (Preparing(s.ping.pc) ==> s.count == 0)
    && Tokens(s) + s.forgotten == 1
    && s.count == s.replies + B(PongsTurn(s)) + B(s.forgotten == 1 && s.replies == 0)
    && (s.forgotten > 0 ==> s.start && !Recorded(s))
    && (s.start && !Recorded(s) ==> MarkedInv(s))
  }

  predicate Inv(s: State) {
    && InOrder(s.ping, Ping', s.start) && InOrder(s.pong, Pong', s.start)
    && MonitorInv(s) && TurnInv(s)
  }

  function Alpha(s: State): Game {
    Game(s.count, s.replies)
  }

  function MoveOf(l: Label): Move {
    if l == Increment then Ping else if l == Sends(Pong') then Pong else Hold
  }

  /** What counts as useful on the way to the next increment. */
  function KindOf(l: Label): Kind {
    match l
    case Increment => Count
    case Misses(_) => Retry(0)
    case FindsNot => Retry(0)
    case Compares(_) => Retry(0)
    case _ => Work
  }

  /** What counts as work of the exchange itself. */
  function LoopKind(l: Label): Kind {
    match l
    case Increment => Count
    case Enters(_) => Work
    case Sends(_) => Work
    case Delivers(_) => Work
    case Sees(_) => Work
    case Clears(_) => Work
    case _ => Retry(0)
  }

  /** Of the eight steps that carry the turn through a round, those to come, or lost with the turn; and the
    entries of the threads into their loops. */
  function Rank(s: State): nat {
    B(Preparing(s.ping.pc)) + B(Preparing(s.pong.pc))
    + if s.forgotten > 0 then (if s.replies == 0 then 7 else 3)
      else if s.ping.pc == Send then 8
      else if s.pong.pending > 0 then 7
      else if s.pong.flag then (if s.pong.pc == Clear then 5 else 6)
      else if s.pong.pc == Send then 4
      else if s.ping.pending > 0 then 3
      else if s.ping.flag then (if s.ping.pc == Clear then 1 else 2)
      else 0
  }

  /** The statements before the start that are still to come. */
  function Ahead(s: State): nat {
    Statements(s.ping.pc) + Statements(s.pong.pc)
    + (match s.reaper case Idle => 0 case Marking(_) => 2 case Raising => 1)
    + (match s.monitor
       case Spawn0 => 9 case Record0 => 8 case Spawn1 => 7 case Record1 => 6 case CatchChld => 5
       case ClearStop => 4 case TestReady0 => 3 case TestReady1 => 2 case SetStart => 1 case Started => 0)
  }

  function Statements(pc: Pc): nat {
    match pc
    case Unborn => 5 case TestPid => 5 case WritePid => 4 case Interrupts => 3 case CommPre => 2 case SetReady => 1
    case _ => 0
  }

  function ToCount(s: State): nat {
    Ahead(s) + Rank(s)
  }

  // ---- every step keeps it ----

  ghost predicate Keeps(s: State, l: Label, s': State) {
    Inv(s') && GameStep(Alpha(s), MoveOf(l), Alpha(s')) && Pays(Rank(s), LoopKind(l), Rank(s'), 8)
  }

  lemma PingPrepares(s: State, l: Label, s': State)
    requires Inv(s) && Step(s, l, s') && l == Prepare(Ping')
    ensures Keeps(s, l, s')
  {
    assert s' == s.(ping := Prepared(s.ping));
  }

  lemma PingEnters(s: State, l: Label, s': State)
    requires Inv(s) && Step(s, l, s') && l == Enters(Ping')
    ensures Keeps(s, l, s')
  {
    assert s' == s.(ping := Entered(s.ping, Ping'));
  }

  lemma PingReceives(s: State, l: Label, s': State)
    requires Inv(s) && Step(s, l, s') && l == Delivers(Ping')
    ensures Keeps(s, l, s')
  {
    assert s.ping.caught && !s.ping.flag;
    assert s' == s.(ping := s.ping.(pending := 0, flag := true));
  }

  lemma PingSees(s: State, l: Label, s': State)
    requires Inv(s) && Step(s, l, s') && l == Sees(Ping')
    ensures Keeps(s, l, s')
  {
    assert s' == s.(ping := s.ping.(pc := Clear));
  }

  lemma PingClears(s: State, l: Label, s': State)
    requires Inv(s) && Step(s, l, s') && l == Clears(Ping')
    ensures Keeps(s, l, s')
  {
  }

  lemma PingSends(s: State, l: Label, s': State)
    requires Inv(s) && Step(s, l, s') && l == Sends(Ping')
    ensures Keeps(s, l, s')
  {
  }

  lemma PongPrepares(s: State, l: Label, s': State)
    requires Inv(s) && Step(s, l, s') && l == Prepare(Pong')
    ensures Keeps(s, l, s')
  {
    assert s' == s.(pong := Prepared(s.pong));
  }

  lemma PongEnters(s: State, l: Label, s': State)
    requires Inv(s) && Step(s, l, s') && l == Enters(Pong')
    ensures Keeps(s, l, s')
  {
    assert s' == s.(pong := Entered(s.pong, Pong'));
  }

  lemma PongReceives(s: State, l: Label, s': State)
    requires Inv(s) && Step(s, l, s') && l == Delivers(Pong')
    ensures Keeps(s, l, s')
  {
    assert s.pong.caught && !s.pong.flag;
    assert s' == s.(pong := s.pong.(pending := 0, flag := true));
  }

  lemma PongSees(s: State, l: Label, s': State)
    requires Inv(s) && Step(s, l, s') && l == Sees(Pong')
    ensures Keeps(s, l, s')
  {
    assert s' == s.(pong := s.pong.(pc := Clear));
  }

  lemma PongClears(s: State, l: Label, s': State)
    requires Inv(s) && Step(s, l, s') && l == Clears(Pong')
    ensures Keeps(s, l, s')
  {
  }

  lemma PongSends(s: State, l: Label, s': State)
    requires Inv(s) && Step(s, l, s') && l == Sends(Pong')
    ensures Keeps(s, l, s')
  {
  }

  lemma MonitorKeeps(s: State, l: Label, s': State)
    requires Inv(s) && Step(s, l, s') && l == Monitors
    ensures Keeps(s, l, s')
  {
  }

  lemma TestKeeps(s: State, l: Label, s': State)
    requires Inv(s) && Step(s, l, s') && (l == Finds || l == FindsNot)
    ensures Keeps(s, l, s')
  {
  }

  lemma CompareKeeps(s: State, l: Label, s': State)
    requires Inv(s) && Step(s, l, s') && l.Compares?
    ensures Keeps(s, l, s')
  {
  }

  lemma MarkKeeps(s: State, l: Label, s': State)
    requires Inv(s) && Step(s, l, s') && l == Marks
    ensures Keeps(s, l, s')
  {
  }

  lemma RaiseKeeps(s: State, l: Label, s': State)
    requires Inv(s) && Step(s, l, s') && l == Raises
    ensures Keeps(s, l, s')
  {
  }

  lemma MissKeeps(s: State, l: Label, s': State)
    requires Inv(s) && Step(s, l, s') && l.Misses?
    ensures Keeps(s, l, s')
  {
    assert s' == s;
  }

  lemma IncrementKeeps(s: State, l: Label, s': State)
    requires Inv(s) && Step(s, l, s') && l == Increment
    ensures Keeps(s, l, s')
  {
  }

  lemma StepKeeps(s: State, l: Label, s': State)
    requires Inv(s) && Step(s, l, s')
    ensures Keeps(s, l, s')
  {
    match l {
      case Prepare(who) => if who == Ping' { PingPrepares(s, l, s'); } else { PongPrepares(s, l, s'); }
      case Enters(who) => if who == Ping' { PingEnters(s, l, s'); } else { PongEnters(s, l, s'); }
      case Delivers(who) => if who == Ping' { PingReceives(s, l, s'); } else { PongReceives(s, l, s'); }
      case Sees(who) => if who == Ping' { PingSees(s, l, s'); } else { PongSees(s, l, s'); }
      case Misses(_) => MissKeeps(s, l, s');
      case Clears(who) => if who == Ping' { PingClears(s, l, s'); } else { PongClears(s, l, s'); }
      case Sends(who) => if who == Ping' { PingSends(s, l, s'); } else { PongSends(s, l, s'); }
      case Increment => IncrementKeeps(s, l, s');
      case Monitors => MonitorKeeps(s, l, s');
      case Finds => TestKeeps(s, l, s');
      case FindsNot => TestKeeps(s, l, s');
      case Compares(_) => CompareKeeps(s, l, s');
      case Marks => MarkKeeps(s, l, s');
      case Raises => RaiseKeeps(s, l, s');
    }
  }

  lemma Simulation()
    ensures Simulates(Init, Step, Inv, Alpha, MoveOf)
  {
    forall s, l, s' | Inv(s) && Step(s, l, s') ensures Inv(s') && GameStep(Alpha(s), MoveOf(l), Alpha(s')) {
      StepKeeps(s, l, s');
    }
  }

  lemma Paying()
    ensures Paid(Step, Inv, Rank, LoopKind, 8)
  {
    forall s, l, s' | Inv(s) && Step(s, l, s') ensures Inv(s') && Pays(Rank(s), LoopKind(l), Rank(s'), 8) {
      StepKeeps(s, l, s');
    }
  }

  lemma ReachableInv(s: State)
    requires Reachable(Init, Step, s)
    ensures Inv(s)
  {
    Simulation();
    ReachableKeeps(Init, Step, Inv, s);
  }

  lemma LastInv(ss: seq<State>, ls: seq<Label>)
    requires IsRun(Init, Step, ss, ls)
    ensures Inv(ss[|ls|])
  {
    Simulation();
    RunsKeep(Init, Step, Inv, ss, ls);
  }

  // ---- when the exchange goes on, and when it does not ----

  /** Nothing is counted yet, or both pids are recorded. */
  predicate Going(s: State) {
    Inv(s) && (s.count == 0 || Recorded(s))
  }

  /** A step on the way to the next increment, if no SIGCHLD intervenes. */
  function Onward(s: State): Label {
    if s.reaper.Marking? then Marks
    else if s.reaper == Raising then Raises
    else if Early(s.ping.pc) then Prepare(Ping')
    else if Early(s.pong.pc) then Prepare(Pong')
    else if s.monitor == TestReady0 || s.monitor == TestReady1 then Finds
    else if s.monitor != Started then Monitors
    else if s.ping.pc == AwaitStart then Enters(Ping')
    else if s.pong.pc == AwaitStart then Enters(Pong')
    else if s.ping.pc == Bump then Increment
    else if s.ping.pc == Send then Sends(Ping')
    else if s.pong.pending > 0 then Delivers(Pong')
    else if s.pong.pc == Clear then Clears(Pong')
    else if s.pong.flag then Sees(Pong')
    else if s.pong.pc == Send then Sends(Pong')
    else if s.ping.pending > 0 then Delivers(Ping')
    else if s.ping.pc == Clear then Clears(Ping')
    else Sees(Ping')
  }

  lemma OnwardEnabled(s: State)
    requires Going(s)
    ensures Enabled(s, Onward(s)) && !KindOf(Onward(s)).Retry?
  {
  }

  predicate Busy(s: State) {
    s.reaper != Idle || Early(s.ping.pc) || Early(s.pong.pc) || s.monitor != Started
  }

  /** Before the start each such step leaves one statement fewer ... */
  lemma OnwardPrepares(s: State)
    requires Going(s) && Enabled(s, Onward(s)) && Busy(s)
    ensures LoopKind(Onward(s)) == Retry(0) && Ahead(After(s, Onward(s))) < Ahead(s)
  {
  }

  /** ... and after it none is left. */
  lemma OnwardLoops(s: State)
    requires Going(s) && Enabled(s, Onward(s)) && !Busy(s) && Onward(s) != Increment
    ensures LoopKind(Onward(s)) == Work && Ahead(After(s, Onward(s))) == Ahead(s)
  {
    assert s.start;
  }

  lemma OnwardRecords(s: State)
    requires Going(s) && Enabled(s, Onward(s)) && Onward(s) != Increment
    ensures var s' := After(s, Onward(s)); s'.count == s.count && (s.start && Recorded(s) ==> Recorded(s'))
    ensures s.count > 0 ==> s.start
  {
  }

  lemma OnwardGoes(s: State)
    requires Going(s)
    ensures var l := Onward(s);
            && Enabled(s, l)
            && (l == Increment || (KindOf(l) == Work && Going(After(s, l)) && ToCount(After(s, l)) < ToCount(s)))
  {
    OnwardEnabled(s);
    var l := Onward(s);
    if l != Increment {
      StepKeeps(s, l, After(s, l));
      OnwardRecords(s);
      if Busy(s) {
        OnwardPrepares(s);
      } else {
        OnwardLoops(s);
      }
    }
  }

  lemma Offering()
    ensures Advancing(Step, Going, ToCount, KindOf)
  {
    forall s | Going(s) ensures Advances(Step, Going, ToCount, KindOf, s) {
      OnwardGoes(s);
      assert Step(s, Onward(s), After(s, Onward(s)));
    }
  }

  lemma NotFar(s: State)
    requires Inv(s)
    ensures ToCount(s) <= 21
  {
  }

  lemma GoesOn(s: State)
    requires Going(s)
    ensures CountsWithin(Step, KindOf, s, 22)
  {
    Offering();
    NotFar(s);
    AdvancesToCount(Step, Going, ToCount, KindOf, s);
    CountsWithinMore(Step, KindOf, s, ToCount(s) + 1, 22);
  }

  /** Ping has counted, and one of the pids is -1. */
  predicate Lost(s: State) {
    Inv(s) && s.count > 0 && !Recorded(s)
  }

  lemma LostStays(s: State, l: Label, s': State)
    requires Lost(s) && Step(s, l, s')
    ensures Lost(s') && l != Increment && s'.count == s.count == 1
  {
    StepKeeps(s, l, s');
    PidsStay(s, l, s');
  }

  /** Once started, the pids stay what they are. */
  lemma PidsStay(s: State, l: Label, s': State)
    requires Inv(s) && Step(s, l, s') && s.start
    ensures s'.start && s'.ping.pid == s.ping.pid && s'.pong.pid == s.pong.pid
  {
  }

  lemma {:induction false} NeverCounts(ss: seq<State>, ls: seq<Label>)
    requires IsPath(Step, ss, ls) && Lost(ss[0])
    ensures Lost(ss[|ls|]) && forall i :: 0 <= i < |ls| ==> ls[i] != Increment
    decreases |ls|
  {
    if |ls| > 0 {
      var n := |ls| - 1;
      NeverCounts(ss[..n + 1], ls[..n]);
      assert Step(ss[n], ls[n], ss[n + 1]);
      LostStays(ss[n], ls[n], ss[n + 1]);
      forall i | 0 <= i < |ls| ensures ls[i] != Increment {
        if i < n {
          assert ls[..n][i] != Increment;
        }
      }
    }
  }

  lemma LostForEver(s: State, n: nat)
    requires Lost(s)
    ensures !CountsWithin(Step, KindOf, s, n)
  {
    if CountsWithin(Step, KindOf, s, n) {
      var ss, ls :| IsPath(Step, ss, ls) && ss[0] == s && 0 < |ls| <= n
        && KindOf(ls[|ls| - 1]) == Count && forall i :: 0 <= i < |ls| - 1 ==> KindOf(ls[i]) == Work;
      NeverCounts(ss, ls);
    }
  }

  lemma NeverAgain(s: State)
    requires Lost(s)
    ensures forall n :: !CountsWithin(Step, KindOf, s, n)
  {
    forall n ensures !CountsWithin(Step, KindOf, s, n) {
      LostForEver(s, n);
    }
  }

  function CountOf(s: State): nat { s.count }

  lemma CountMoves()
    ensures Counted(Step, CountOf, LoopKind)
  {
  }
}
