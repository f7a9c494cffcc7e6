/** What becomes of the turn in the signal exchange: kept exactly for forked children, lost for good by a
  cloned one that the monitor has marked. */
module SignalExchange {
  import opened Runs
  import Whole = Lifecycle
  import opened SignalMode

  // ---- a run that loses the turn ----

  /** A thread that has its pid, or a mark in its place, goes on until it is ready. */
  lemma GetsReady(s: State, who: Who)
    requires Reachable(Init, Step, s) && Get(s, who).pc == Interrupts
    ensures Reachable(Init, Step, Set(s, who, Get(s, who).(pc := AwaitStart, caught := true, ready := true)))
  {
    var t := Get(s, who);
    ReachableInv(s);
    var s1 := Set(s, who, t.(pc := CommPre));
    var s2 := Set(s, who, t.(pc := SetReady, caught := true));
    Extend(Init, Step, s, Prepare(who), s1);
    Extend(Init, Step, s1, Prepare(who), s2);
    Extend(Init, Step, s2, Prepare(who), Set(s, who, t.(pc := AwaitStart, caught := true, ready := true)));
  }

  const PING_BORN := NEWBORN.(pc := Interrupts, pid := Whole.Real)
  const PONG_MARKED := NEWBORN.(pc := Interrupts, pid := Whole.Gone)
  const MARKED := State(Whole.Clone, PING_BORN, PONG_MARKED, TestReady0, Idle, false, false, 0, 0, 0)

  /** Cloned ping has recorded its pid before the monitor goes on. */
  const WATCHED := State(Whole.Clone, PING_BORN, NEWBORN.(pc := TestPid), ClearStop, Idle, false, false, 0, 0, 0)

  lemma CloneIsWatched()
    ensures Reachable(Init, Step, WATCHED)
  {
    var s0 := State(Whole.Clone, NEWBORN, NEWBORN, Spawn0, Idle, false, false, 0, 0, 0);
    var born := NEWBORN.(pc := TestPid);
    var s1 := s0.(ping := born, monitor := Spawn1);
    var s2 := s1.(pong := born, monitor := CatchChld);
    var s3 := s2.(ping := born.(pc := WritePid));
    Start(Init, Step, s0);
    Extend(Init, Step, s0, Monitors, s1);
    Extend(Init, Step, s1, Monitors, s2);
    Extend(Init, Step, s2, Prepare(Ping'), s3);
    Extend(Init, Step, s3, Prepare(Ping'), s3.(ping := PING_BORN));
    Extend(Init, Step, s3.(ping := PING_BORN), Monitors, WATCHED);
  }

  /** Pong is marked before it has looked at its pid, while the monitor is still to withdraw `stop`. */
  lemma PongIsMarked()
    ensures Reachable(Init, Step, MARKED)
  {
    CloneIsWatched();
    var s1 := WATCHED.(reaper := Marking(Pong'));
    var s2 := WATCHED.(reaper := Raising, pong := WATCHED.pong.(pid := Whole.Gone));
    var s3 := s2.(reaper := Idle, stop := true);
    var s4 := s3.(monitor := TestReady0, stop := false);
    Extend(Init, Step, WATCHED, Compares(Pong'), s1);
    Extend(Init, Step, s1, Marks, s2);
    Extend(Init, Step, s2, Raises, s3);
    Extend(Init, Step, s3, Monitors, s4);
    Extend(Init, Step, s4, Prepare(Pong'), MARKED);
  }

  const PING_READY := PING_BORN.(pc := AwaitStart, caught := true, ready := true)
  const PONG_READY := PONG_MARKED.(pc := AwaitStart, caught := true, ready := true)
  const GO := MARKED.(ping := PING_READY, pong := PONG_READY, monitor := Started, start := true)

  lemma MarkedStarts()
    ensures Reachable(Init, Step, GO)
  {
    PongIsMarked();
    GetsReady(MARKED, Ping');
    var s0 := MARKED.(ping := PING_READY);
    GetsReady(s0, Pong');
    var s1 := s0.(pong := PONG_READY);
    var s2, s3 := s1.(monitor := TestReady1), s1.(monitor := SetStart);
    Extend(Init, Step, s1, Finds, s2);
    Extend(Init, Step, s2, Finds, s3);
    Extend(Init, Step, s3, Monitors, GO);
  }

  const DEADLOCK := GO.(count := 1, forgotten := 1, ping := PING_READY.(pc := Poll), pong := PONG_READY.(pc := Poll))

  lemma SignalGoesNowhere()
    ensures Reachable(Init, Step, DEADLOCK)
  {
    MarkedStarts();
    var s1 := GO.(ping := PING_READY.(pc := Bump));
    var s2 := s1.(pong := PONG_READY.(pc := Poll));
    var s3 := s2.(count := 1, ping := PING_READY.(pc := Send));
    Extend(Init, Step, GO, Enters(Ping'), s1);
    Extend(Init, Step, s1, Enters(Pong'), s2);
    Extend(Init, Step, s2, Increment, s3);
    Extend(Init, Step, s3, Sends(Ping'), DEADLOCK);
  }

  /** The exchange starts, nobody asks to stop, and ping's first signal goes nowhere: both threads poll for
    ever. */
  lemma LosesTheTurn() returns (s: State)
    ensures Reachable(Init, Step, s) && s.mode == Whole.Clone && s.start && !s.stop
    ensures Tokens(s) == 0 && s.forgotten == 1 && s.count == 1 && s.replies == 0
    ensures s.ping.pc == s.pong.pc == Poll && forall n :: !CountsWithin(Step, KindOf, s, n)
  {
    SignalGoesNowhere();
    s := DEADLOCK;
    DeadlockIsLost();
    NeverAgain(s);
  }

  lemma DeadlockIsLost()
    requires Reachable(Init, Step, DEADLOCK)
    ensures Lost(DEADLOCK) && Tokens(DEADLOCK) == 0
  {
    ReachableInv(DEADLOCK);
  }

  // ---- main results ----

  /** From the first statement of either thread on the turn is in exactly one place, or has been lost to a
    pid of -1. A signal always meets an installed handler and a clear flag, and when a flag is cleared
    nothing else is pending or raised that could be lost with it. With both pids recorded at the start
    every send finds one, and nothing is ever lost. */
  lemma OneTurn(s: State, who: Who)
    requires Reachable(Init, Step, s)
    ensures Tokens(s) + s.forgotten == 1 && !s.ping.killed && !s.pong.killed
    ensures Enabled(s, Delivers(who)) ==> Get(s, who).caught && !Get(s, who).flag
    ensures Enabled(s, Sends(who)) ==> Get(s, Other(who)).caught && Get(s, Other(who)).pid != Whole.Unset
    ensures Enabled(s, Clears(who)) ==>
              Get(s, who).flag && s.ping.pending == s.pong.pending == 0 && !Get(s, Other(who)).flag
    ensures s.count > 0 ==> s.start && s.ping.ready && s.pong.ready
    ensures s.start && Recorded(s) ==> Tokens(s) == 1 && s.forgotten == 0
    ensures s.start && !Recorded(s) ==> s.count <= 1
  {
    ReachableInv(s);
  }

  /** The turn is never lost exactly for forked children. */
  lemma TurnIsKept(mode: Whole.Mode)
    ensures (forall s :: Reachable(Init, Step, s) && s.mode == mode ==> Tokens(s) == 1 && s.forgotten == 0)
            <==> mode == Whole.Fork
  {
    if mode == Whole.Fork {
      forall s | Reachable(Init, Step, s) && s.mode == mode ensures Tokens(s) == 1 && s.forgotten == 0 {
        ReachableInv(s);
      }
    } else {
      var s := LosesTheTurn();
    }
  }

  /** Wherever the signals are delivered, increments and pong's signals strictly alternate, and a round is
    open exactly while the turn is with pong or on its way there, or was lost on that way. */
  lemma SignalAlternates(ss: seq<State>, ls: seq<Label>)
    requires IsRun(Init, Step, ss, ls)
    ensures var s := ss[|ls|];
            s.count > s.replies <==> PongsTurn(s) || (s.forgotten > 0 && s.replies == 0)
    ensures Alternates(Trace(Map(MoveOf, ls)))
    ensures ss[|ls|].count == (|Trace(Map(MoveOf, ls))| + 1) / 2
    ensures ss[|ls|].replies == |Trace(Map(MoveOf, ls))| / 2
  {
    Simulation();
    Refinement(Init, Step, Inv, Alpha, MoveOf, ss, ls);
    LastInv(ss, ls);
  }

  /** A reachable state can come to the next increment exactly if nothing is counted yet or both pids are
    recorded; it is then at most 22 useful steps away, and otherwise there is never another. */
  lemma SignalProgress(s: State)
    requires Reachable(Init, Step, s)
    ensures CountsWithin(Step, KindOf, s, 22) <==> s.count == 0 || Recorded(s)
    ensures (exists n :: CountsWithin(Step, KindOf, s, n)) <==> s.count == 0 || Recorded(s)
  {
    ReachableInv(s);
    if s.count == 0 || Recorded(s) {
      GoesOn(s);
    } else {
      NeverAgain(s);
    }
  }

  /** The exchange goes on for ever exactly for forked children. */
  lemma ExchangeGoesOn(mode: Whole.Mode)
    ensures (forall s :: Reachable(Init, Step, s) && s.mode == mode ==> CountsWithin(Step, KindOf, s, 22))
            <==> mode == Whole.Fork
  {
    if mode == Whole.Fork {
      forall s | Reachable(Init, Step, s) && s.mode == mode ensures CountsWithin(Step, KindOf, s, 22) {
        ReachableInv(s);
        RecordedIfForked(s);
        GoesOn(s);
      }
    } else {
      var s := LosesTheTurn();
    }
  }

  lemma RecordedIfForked(s: State)
    requires Inv(s) && s.mode == Whole.Fork
    ensures s.count > 0 ==> Recorded(s)
  {
  }

  lemma NothingSlips(ls: seq<Label>)
    ensures Slips(LoopKind, ls) == 0
  {
    NoSlips(LoopKind, ls);
  }

  lemma LoopCounts(ss: seq<State>, ls: seq<Label>)
    requires IsRun(Init, Step, ss, ls)
    ensures ss[|ls|].count == Counts(LoopKind, ls)
  {
    CountMoves();
    CountsMove(Step, CountOf, LoopKind, ss, ls);
  }

  /** Two steps enter the loops and each round takes eight, done, outstanding, or lost with the turn. */
  lemma SignalThroughput(ss: seq<State>, ls: seq<Label>)
    requires IsRun(Init, Step, ss, ls)
    ensures Works(LoopKind, ls) + Rank(ss[|ls|]) == 2 + 8 * ss[|ls|].count
  {
    Paying();
    Simulation();
    Throughput(Step, Inv, Rank, LoopKind, 8, ss, ls);
    LoopCounts(ss, ls);
    NothingSlips(ls);
  }
}
