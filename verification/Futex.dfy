/** The futex mode under the generic loops: one shared word, one kernel queue of sleepers, a wake-up
  that is repeated until it wakes somebody, and a wait that is repeated until it is woken. */
module Futex {
  import opened Runs
  import Wiring

  datatype Who = Ping' | Pong'

  /** The statements of a thread: ping increments, sends, receives; pong receives, then sends. After a
    wake-up that woke nobody, or a wait that failed, the thread tests `stop`. */
  datatype Pc = Bump | Store | Wake | WokeNobody | Wait | WaitFailed | Asleep

  /** `queue` holds the threads that sleep on the word, longest sleeper first; `sentByPing` and
    `sentByPong` count the stores. */
  datatype State = State(word: int, queue: seq<Who>, stop: bool, count: nat, sentByPing: nat, sentByPong: nat,
                         ping: Pc, pong: Pc)

  /** WakesNobody: FUTEX_WAKE returns 0. Refused: FUTEX_WAIT finds the word changed (EAGAIN).
    Interrupted: a sleeper is torn from the queue (EINTR). Tests: after any of these the thread loads
    `stop`, to leave its loop or go round again. Stop: the monitor asks to stop. */
  datatype Label =
    | Increment | Stores(who: Who) | Wakes(who: Who) | WakesNobody(who: Who)
    | Sleeps(who: Who) | Refused(who: Who) | Interrupted(who: Who) | Tests(who: Who) | Stop

  /** The values of the two futex descriptors, and which of them a thread stores and awaits the end of:
    it stores the value of its mouth and sleeps while the word has the value of its ear's counterpart. */
  function FutexVal(i: nat): int { 0x0A + i }

  function Mouth(who: Who): nat {
    var (mouth, _) := Wiring.Wire(Wiring.FutexWord);
    (if who == Ping' then mouth[0] else mouth[1]).i
  }

  function Ear(who: Who): nat {
    var (_, ear) := Wiring.Wire(Wiring.FutexWord);
    (if who == Ping' then ear[0] else ear[1]).i
  }

  function Stored(who: Who): int { FutexVal(Mouth(who)) }
  function SleptOn(who: Who): int { FutexVal(if Ear(who) == 0 then 1 else 0) }

  /** A thread sleeps on what the other one stores, so it can only sleep once the other has answered. */
  lemma Values()
    ensures Stored(Ping') == SleptOn(Pong') == 0x0B && Stored(Pong') == SleptOn(Ping') == 0x0A
  {
  }

  function PcOf(s: State, who: Who): Pc {
    if who == Ping' then s.ping else s.pong
  }

  function At(s: State, who: Who, pc: Pc): State {
    if who == Ping' then s.(ping := pc) else s.(pong := pc)
  }

  /** Where a thread goes when its receive, or its send, returns. */
  function Received(who: Who): Pc { if who == Ping' then Bump else Store }
  function Sent(who: Who): Pc { Wait }

  predicate Init(s: State) {
    s == State(FutexVal(0), [], false, 0, 0, 0, Bump, Wait)
  }

  function Without(queue: seq<Who>, who: Who): seq<Who> {
    if queue == [] then []
    else (if queue[0] == who then [] else [queue[0]]) + Without(queue[1..], who)
  }

  predicate Enabled(s: State, l: Label) {
    match l
    case Increment => s.ping == Bump
    case Stores(who) => PcOf(s, who) == Store
    case Wakes(who) => PcOf(s, who) == Wake && s.queue != []
    case WakesNobody(who) => PcOf(s, who) == Wake && s.queue == []
    case Sleeps(who) => PcOf(s, who) == Wait && s.word == SleptOn(who)
    case Refused(who) => PcOf(s, who) == Wait && s.word != SleptOn(who)
    case Interrupted(who) => PcOf(s, who) == Asleep
    case Tests(who) => PcOf(s, who) == WokeNobody || PcOf(s, who) == WaitFailed
    case Stop => true
  }

  /** Where the test of `stop` takes a thread: out of its loop, or round again. */
  function Tested(pc: Pc, who: Who, stop: bool): Pc {
    if pc == WokeNobody then (if stop then Sent(who) else Wake) else (if stop then Received(who) else Wait)
  }

  function After(s: State, l: Label): State
    requires Enabled(s, l)
  {
    match l
    case Increment => s.(count := s.count + 1, ping := Store)
    case Stores(who) =>
      At(if who == Ping' then s.(word := Stored(who), sentByPing := s.sentByPing + 1)
         else s.(word := Stored(who), sentByPong := s.sentByPong + 1), who, Wake)
    case Wakes(who) =>
      var woken := s.queue[0];
      At(At(s.(queue := s.queue[1..]), woken, Received(woken)), who, Sent(who))
    case WakesNobody(who) => At(s, who, WokeNobody)
    case Sleeps(who) => At(s.(queue := s.queue + [who]), who, Asleep)
    case Refused(who) => At(s, who, WaitFailed)
    case Interrupted(who) => At(s.(queue := Without(s.queue, who)), who, WaitFailed)
    case Tests(who) => At(s, who, Tested(PcOf(s, who), who, s.stop))
    case Stop => s.(stop := true)
  }

  predicate Step(s: State, l: Label, s': State) {
    Enabled(s, l) && s' == After(s, l)
  }

  /** Holds for ever, stopping or not: a sleeper is in the queue and the word is the one it fell asleep
    on, so two sleepers would need two different words. */
  predicate QueueInv(s: State) {
    && (s.word == 0x0A || s.word == 0x0B)
    && (s.ping == Asleep ==> s.word == 0x0A && s.queue == [Ping'])
    && (s.pong == Asleep ==> s.word == 0x0B && s.queue == [Pong'])
    && (s.ping != Asleep && s.pong != Asleep ==> s.queue == [])
  }

  /** A thread that is about to test `stop` will call again, unless the run is being stopped. */
  function Call(pc: Pc): Pc {
    if pc == WokeNobody then Wake else if pc == WaitFailed then Wait else pc
  }

  /** Holds until the stop: who has the turn, and what the other one is doing meanwhile. */
  predicate TurnInv(s: State) {
    var pong := Call(s.pong);
    && s.count == s.sentByPing + (if s.ping == Store then 1 else 0)
    && match Call(s.ping)
       case Bump => pong == Wait && s.word == 0x0A && s.sentByPing == s.sentByPong
       case Store => pong == Wait && s.word == 0x0A && s.sentByPing == s.sentByPong
       case Wake => (pong == Wait || pong == Asleep) && s.word == 0x0B && s.sentByPing == s.sentByPong + 1
       case Asleep => pong == Wake && s.word == 0x0A && s.sentByPing == s.sentByPong
       case _ => || (pong == Store && s.word == 0x0B && s.sentByPing == s.sentByPong + 1)
                 || (pong == Wake && s.word == 0x0A && s.sentByPing == s.sentByPong)
  }

  predicate Inv(s: State) {
    QueueInv(s) && (!s.stop ==> TurnInv(s))
  }

  predicate Running(s: State) {
    Inv(s) && !s.stop
  }

  /** The system as long as nobody asks to stop. */
  predicate RunningStep(s: State, l: Label, s': State) {
    l != Stop && Step(s, l, s')
  }

  /** The turn, seen in the counter (a round is open from the increment to pong's store) ... */
  function Rounds(s: State): Game { Game(s.count, s.sentByPong) }

  function RoundMove(l: Label): Move {
    match l case Increment => Ping case Stores(who) => (if who == Pong' then Pong else Hold) case _ => Hold
  }

  /** ... and in the word. */
  function Words(s: State): Game { Game(s.sentByPing, s.sentByPong) }

  function WordMove(l: Label): Move {
    match l case Stores(who) => (if who == Ping' then Ping else Pong) case _ => Hold
  }

  /** A failed call has to be followed by a test of `stop`; an interrupted one has undone the sleep too. */
  function KindOf(l: Label): Kind {
    match l
    case Increment => Count
    case WakesNobody(_) => Retry(1)
    case Refused(_) => Retry(1)
    case Interrupted(_) => Retry(2)
    case _ => Work
  }

  function Failed(pc: Pc): nat {
    if pc == WokeNobody || pc == WaitFailed then 1 else 0
  }

  /** Of the six calls and stores of a round, those still to do, and the tests that are due. */
  function Rank(s: State): nat {
    (match Call(s.ping)
     case Bump => 0
     case Store => 6
     case Wake => if s.pong == Asleep then 4 else 5
     case Asleep => 1
     case _ => if s.pong == Store then 3 else 2)
    + Failed(s.ping) + Failed(s.pong)
  }

  lemma QueueKeeps(s: State, l: Label, s': State)
    requires QueueInv(s) && Step(s, l, s')
    ensures QueueInv(s')
  {
    Values();
    match l {
      case Wakes(_) => assert s'.queue == [];
      case Sleeps(who) =>
        assert (if who == Ping' then s.pong else s.ping) != Asleep;
        assert s.queue == [];
        assert s'.queue == [who];
      case Interrupted(who) =>
        assert s.queue == [who] && s.queue[1..] == [];
        assert s'.queue == [] + Without([], who) == [];
      case _ =>
    }
  }

  lemma TurnStays(s: State, l: Label, s': State)
    requires Running(s) && RunningStep(s, l, s')
    ensures TurnInv(s') && !s'.stop
  {
    Values();
  }

  lemma TurnPlays(s: State, l: Label, s': State)
    requires Running(s) && RunningStep(s, l, s')
    ensures GameStep(Rounds(s), RoundMove(l), Rounds(s')) && GameStep(Words(s), WordMove(l), Words(s'))
  {
    Values();
  }

  lemma TurnPays(s: State, l: Label, s': State)
    requires Running(s) && RunningStep(s, l, s')
    ensures Pays(Rank(s), KindOf(l), Rank(s'), 6)
  {
    Values();
  }

  lemma TurnKeeps(s: State, l: Label, s': State)
    requires Running(s) && RunningStep(s, l, s')
    ensures TurnInv(s') && !s'.stop
    ensures GameStep(Rounds(s), RoundMove(l), Rounds(s')) && GameStep(Words(s), WordMove(l), Words(s'))
    ensures Pays(Rank(s), KindOf(l), Rank(s'), 6)
  {
    TurnStays(s, l, s');
    TurnPlays(s, l, s');
    TurnPays(s, l, s');
  }

  lemma AlwaysUseful(s: State)
    requires Running(s)
    ensures Useful(RunningStep, KindOf, s)
  {
    Values();
    var l :=
      if Failed(s.ping) == 1 then Tests(Ping')
      else if Failed(s.pong) == 1 then Tests(Pong')
      else match s.ping
        case Bump => Increment
        case Store => Stores(Ping')
        case Wake => if s.pong == Asleep then Wakes(Ping') else Sleeps(Pong')
        case Asleep => Wakes(Pong')
        case _ => if s.pong == Store then Stores(Pong') else Sleeps(Ping');
    var s' := After(s, l);
    assert RunningStep(s, l, s') && !KindOf(l).Retry?;
  }

  lemma Simulation()
    ensures Inductive(Init, Step, QueueInv)
    ensures Inductive(Init, RunningStep, Running)
  {
    forall s, l, s' | QueueInv(s) && Step(s, l, s') ensures QueueInv(s') {
      QueueKeeps(s, l, s');
    }
    forall s, l, s' | Running(s) && RunningStep(s, l, s') ensures Running(s') {
      QueueKeeps(s, l, s');
      TurnKeeps(s, l, s');
    }
  }

  lemma Paying()
    ensures Paid(RunningStep, Running, Rank, KindOf, 6)
  {
    forall s, l, s' | Running(s) && RunningStep(s, l, s') ensures Running(s') && Pays(Rank(s), KindOf(l), Rank(s'), 6) {
      QueueKeeps(s, l, s');
      TurnKeeps(s, l, s');
    }
  }

  lemma Offering()
    ensures Live(RunningStep, Running, KindOf)
  {
    forall s | Running(s) ensures Useful(RunningStep, KindOf, s) {
      AlwaysUseful(s);
    }
  }

  lemma RoundsSimulate()
    ensures Simulates(Init, RunningStep, Running, Rounds, RoundMove)
  {
    Simulation();
    forall s, l, s' | Running(s) && RunningStep(s, l, s') ensures GameStep(Rounds(s), RoundMove(l), Rounds(s')) {
      TurnKeeps(s, l, s');
    }
  }

  lemma WordsSimulate()
    ensures Simulates(Init, RunningStep, Running, Words, WordMove)
  {
    Simulation();
    forall s, l, s' | Running(s) && RunningStep(s, l, s') ensures GameStep(Words(s), WordMove(l), Words(s')) {
      TurnKeeps(s, l, s');
    }
  }

  /** The stop request is never withdrawn, so a run that ends unstopped is a run of the running system. */
  lemma {:induction false} Unstopped(ss: seq<State>, ls: seq<Label>)
    requires IsRun(Init, Step, ss, ls) && !ss[|ls|].stop
    ensures IsRun(Init, RunningStep, ss, ls)
    decreases |ls|
  {
    if |ls| > 0 {
      var n := |ls| - 1;
      assert Step(ss[n], ls[n], ss[n + 1]);
      Unstopped(ss[..n + 1], ls[..n]);
      forall i | 0 <= i < |ls| ensures RunningStep(ss[i], ls[i], ss[i + 1]) {
        if i < n {
          assert RunningStep(ss[..n + 1][i], ls[..n][i], ss[..n + 1][i + 1]);
        }
      }
    }
  }

  lemma StillRunning(ss: seq<State>, ls: seq<Label>)
    requires IsRun(Init, Step, ss, ls) && !ss[|ls|].stop
    ensures Running(ss[|ls|])
  {
    Unstopped(ss, ls);
    Simulation();
    RunsKeep(Init, RunningStep, Running, ss, ls);
  }

  lemma CountsFrom(s: State)
    requires Running(s)
    ensures CountsWithin(RunningStep, KindOf, s, 8)
  {
    Paying();
    Offering();
    CanCount(RunningStep, Running, Rank, KindOf, 6, s);
    CountsWithinMore(RunningStep, KindOf, s, Rank(s) + 1, 8);
  }

  // ---- after the stop ----

  /** The stores of a run, in order. */
  function StoresOf(ls: seq<Label>): seq<Move> {
    Trace(Map(WordMove, ls))
  }

  /** The run `ss'`, `ls'` goes on from the run `ss`, `ls` without a further request to stop. */
  ghost predicate Continues(ss: seq<State>, ls: seq<Label>, ss': seq<State>, ls': seq<Label>) {
    && IsRun(Init, Step, ss', ls')
    && |ss| == |ls| + 1 && ss <= ss' && ls <= ls'
    && forall i :: |ls| <= i < |ls'| ==> ls'[i] != Stop
  }

  lemma MoreStores(ls: seq<Label>, l: Label)
    ensures StoresOf(ls + [l]) == StoresOf(ls) + if WordMove(l) == Hold then [] else [WordMove(l)]
  {
    var ms := Map(WordMove, ls + [l]);
    assert ms[..|ls|] == Map(WordMove, ls) && ms[|ls|] == WordMove(l);
  }

  lemma GoOn(ss: seq<State>, ls: seq<Label>, ss1: seq<State>, ls1: seq<Label>, l: Label)
    requires Continues(ss, ls, ss1, ls1) && l != Stop && Enabled(ss1[|ls1|], l)
    ensures Continues(ss, ls, ss1 + [After(ss1[|ls1|], l)], ls1 + [l])
    ensures StoresOf(ls1 + [l]) == StoresOf(ls1) + if WordMove(l) == Hold then [] else [WordMove(l)]
  {
    Append(Init, Step, ss1, ls1, l, After(ss1[|ls1|], l));
    MoreStores(ls1, l);
  }

  /** What a thread does next when it need not wait for the other one. */
  function Alone(s: State, who: Who): Label {
    match PcOf(s, who)
    case Bump => if who == Ping' then Increment else Stop
    case Store => Stores(who)
    case Wake => if s.queue == [] then WakesNobody(who) else Wakes(who)
    case WokeNobody => Tests(who)
    case Wait => if s.word == SleptOn(who) then Sleeps(who) else Refused(who)
    case WaitFailed => Tests(who)
    case Asleep => Interrupted(who)
  }

  /** Its steps before its receive has returned. */
  function Before(pc: Pc, who: Who): nat {
    if pc == Received(who) then 0
    else
      match pc
      case WaitFailed => 1 case Asleep => 2 case Wait => 3 case WokeNobody => 4 case Wake => 5 case _ => 6
  }

  predicate Own(l: Label, who: Who) {
    match l
    case Increment => who == Ping'
    case Stop => false
    case _ => l.who == who
  }

  function MoveOf(who: Who): Move {
    if who == Ping' then Ping else Pong
  }

  /** Only ping increments. */
  predicate AloneInv(s: State) {
    QueueInv(s) && s.stop && s.pong != Bump
  }

  lemma AloneSteps(s: State, who: Who)
    requires AloneInv(s)
    ensures Enabled(s, Alone(s, who)) && Own(Alone(s, who), who)
    ensures var s' := After(s, Alone(s, who));
            var (pc, pc') := (PcOf(s, who), PcOf(s', who));
            && AloneInv(s')
            && (pc == Bump ==> pc' == Store)
            && (pc != Received(who) ==> Before(pc', who) < Before(pc, who))
            && (pc == Store ==> pc' == Wake)
    ensures WordMove(Alone(s, who)) == if PcOf(s, who) == Store then MoveOf(who) else Hold
  {
    Values();
    QueueKeeps(s, Alone(s, who), After(s, Alone(s, who)));
  }

  /** From position `from` on only `who` does something. */
  predicate GoesAlone(ls: seq<Label>, from: nat, who: Who) {
    forall i :: from <= i < |ls| ==> Own(ls[i], who)
  }

  /** Once stopped, a thread comes back from its receive whatever the other one does; on the way it stores
    only if it was about to. */
  lemma {:induction false} ComesBack(ss: seq<State>, ls: seq<Label>, ss1: seq<State>, ls1: seq<Label>, who: Who)
    returns (ss2: seq<State>, ls2: seq<Label>)
    requires Continues(ss, ls, ss1, ls1) && AloneInv(ss1[|ls1|]) && GoesAlone(ls1, |ls|, who)
    ensures Continues(ss, ls, ss2, ls2) && AloneInv(ss2[|ls2|]) && GoesAlone(ls2, |ls|, who)
    ensures PcOf(ss2[|ls2|], who) == Received(who)
    ensures StoresOf(ls2)
         == StoresOf(ls1) + if PcOf(ss1[|ls1|], who) == Store && who == Ping' then [Ping] else []
    decreases Before(PcOf(ss1[|ls1|], who), who)
  {
    var s := ss1[|ls1|];
    if PcOf(s, who) == Received(who) {
      ss2, ls2 := ss1, ls1;
    } else {
      AloneSteps(s, who);
      GoOn(ss, ls, ss1, ls1, Alone(s, who));
      ss2, ls2 := ComesBack(ss, ls, ss1 + [After(s, Alone(s, who))], ls1 + [Alone(s, who)], who);
    }
  }

  /** From there it goes on to a store. */
  lemma StoresOnce(ss: seq<State>, ls: seq<Label>, ss1: seq<State>, ls1: seq<Label>, who: Who)
    returns (ss2: seq<State>, ls2: seq<Label>)
    requires Continues(ss, ls, ss1, ls1) && AloneInv(ss1[|ls1|]) && GoesAlone(ls1, |ls|, who)
    requires PcOf(ss1[|ls1|], who) == Received(who)
    ensures Continues(ss, ls, ss2, ls2) && AloneInv(ss2[|ls2|]) && GoesAlone(ls2, |ls|, who)
    ensures PcOf(ss2[|ls2|], who) == Received(who)
    ensures StoresOf(ls2) == StoresOf(ls1) + [MoveOf(who)]
  {
    var s := ss1[|ls1|];
    AloneSteps(s, who);
    GoOn(ss, ls, ss1, ls1, Alone(s, who));
    ss2, ls2 := ComesBack(ss, ls, ss1 + [After(s, Alone(s, who))], ls1 + [Alone(s, who)], who);
  }

  lemma OnlyPingBumps()
    ensures Inductive(Init, Step, (s: State) => s.pong != Bump)
  {
  }

  lemma {:induction false} StopStays(ss: seq<State>, ls: seq<Label>, ss': seq<State>, ls': seq<Label>)
    requires Continues(ss, ls, ss', ls')
    ensures ss'[|ls'|].stop == ss[|ls|].stop
    decreases |ls'|
  {
    if |ls'| > |ls| {
      var n := |ls'| - 1;
      assert Step(ss'[n], ls'[n], ss'[n + 1]);
      StopStays(ss, ls, ss'[..n + 1], ls'[..n]);
    }
  }

  function CountOf(s: State): nat { s.count }

  lemma CountMoves()
    ensures Counted(RunningStep, CountOf, KindOf)
  {
  }

  // ---- main results ----

  /** Stopping or not, the two threads are never asleep together, and a wake-up that returns 1 has
    woken the other thread. */
  lemma NeverBothAsleep(s: State, who: Who)
    requires Reachable(Init, Step, s)
    ensures !(s.ping == Asleep && s.pong == Asleep)
    ensures Enabled(s, Wakes(who)) ==> s.queue[0] != who && PcOf(s, s.queue[0]) == Asleep
    ensures PcOf(s, who) == Asleep ==> s.word == SleptOn(who) && s.queue == [who]
  {
    Simulation();
    ReachableKeeps(Init, Step, QueueInv, s);
    Values();
  }

  /** What the kernel answers: a wake-up returns 0 exactly if the other thread does not sleep, and a wait is
    refused exactly while the word holds the thread's own value, which the other has not answered yet. */
  lemma KernelAnswers(s: State, who: Who)
    requires Reachable(Init, Step, s)
    ensures var other := PcOf(s, if who == Ping' then Pong' else Ping');
            && (Enabled(s, WakesNobody(who)) <==> PcOf(s, who) == Wake && other != Asleep)
            && (Enabled(s, Wakes(who)) <==> PcOf(s, who) == Wake && other == Asleep)
    ensures var own := if who == Ping' then 0x0B else 0x0A;
            && (Enabled(s, Sleeps(who)) <==> PcOf(s, who) == Wait && s.word != own)
            && (Enabled(s, Refused(who)) <==> PcOf(s, who) == Wait && s.word == own)
  {
    Simulation();
    ReachableKeeps(Init, Step, QueueInv, s);
    Values();
  }

  /** Until the stop, increments and pong's stores alternate, and so do the two values of the word, with
    any number of refused, interrupted and fruitless calls in between. */
  lemma FutexAlternates(ss: seq<State>, ls: seq<Label>)
    requires IsRun(Init, Step, ss, ls) && !ss[|ls|].stop
    ensures Alternates(Trace(Map(RoundMove, ls))) && Alternates(StoresOf(ls))
    ensures ss[|ls|].count == (|Trace(Map(RoundMove, ls))| + 1) / 2
    ensures ss[|ls|].sentByPong == |Trace(Map(RoundMove, ls))| / 2 == |StoresOf(ls)| / 2
  {
    Unstopped(ss, ls);
    RoundsSimulate();
    Refinement(Init, RunningStep, Running, Rounds, RoundMove, ss, ls);
    WordsSimulate();
    Refinement(Init, RunningStep, Running, Words, WordMove, ss, ls);
  }

  /** A thread whose call has failed, or whose sleep was interrupted, tests `stop` next and does nothing else; one
    that has woken the other goes on to its receive, and the other has received. */
  lemma CallsEnd(s: State, l: Label, s': State, l': Label)
    requires Reachable(Init, Step, s) && Step(s, l, s')
    ensures l.WakesNobody? || l.Refused? || l.Interrupted? ==>
              Enabled(s', Tests(l.who)) && (Enabled(s', l') && Own(l', l.who) ==> l' == Tests(l.who))
    ensures l == Wakes(Ping') ==> s.pong == Asleep && s'.ping == Wait && s'.pong == Store
    ensures l == Wakes(Pong') ==> s.ping == Asleep && s'.pong == Wait && s'.ping == Bump
  {
    Simulation();
    ReachableKeeps(Init, Step, QueueInv, s);
  }

  /** After a failed call a thread leaves its loop exactly if the run is being stopped: from a fruitless
    wake-up ping and pong go on to their receive, and from a failed wait ping to its increment and pong to
    its answer. */
  lemma StopEndsLoops(s: State, who: Who, s': State)
    requires Reachable(Init, Step, s) && Step(s, Tests(who), s')
    ensures PcOf(s, who) == WokeNobody || PcOf(s, who) == WaitFailed
    ensures PcOf(s, who) == WokeNobody ==> PcOf(s', who) == if s.stop then Wait else Wake
    ensures PcOf(s, who) == WaitFailed && !s.stop ==> PcOf(s', who) == Wait
    ensures s.ping == WaitFailed && who == Ping' && s.stop ==> s'.ping == Bump
    ensures s.pong == WaitFailed && who == Pong' && s.stop ==> s'.pong == Store
  {
  }

  /** Every run that has been asked to stop can go on by the steps of either thread alone, so that it gives up
    waiting and stores its value twice in a row. */
  lemma StoppedStoresTwice(ss: seq<State>, ls: seq<Label>, who: Who) returns (ss': seq<State>, ls': seq<Label>)
    requires IsRun(Init, Step, ss, ls) && ss[|ls|].stop
    ensures Continues(ss, ls, ss', ls') && GoesAlone(ls', |ls|, who) && !Alternates(StoresOf(ls'))
  {
    Simulation();
    RunsKeep(Init, Step, QueueInv, ss, ls);
    OnlyPingBumps();
    RunsKeep(Init, Step, (s: State) => s.pong != Bump, ss, ls);
    var ss1, ls1 := ComesBack(ss, ls, ss, ls, who);
    var ss2, ls2 := StoresOnce(ss, ls, ss1, ls1, who);
    ss', ls' := StoresOnce(ss, ls, ss2, ls2, who);
    assert StoresOf(ls1) + [MoveOf(who)] + [MoveOf(who)] == StoresOf(ls1) + [MoveOf(who), MoveOf(who)];
    TwiceBreaks(StoresOf(ls1), MoveOf(who));
  }

  /** However a run goes on, short of a further request to stop, the words alternate exactly if it has not
    been asked to stop. */
  lemma StopDecides(ss: seq<State>, ls: seq<Label>)
    requires IsRun(Init, Step, ss, ls)
    ensures (forall ss', ls' :: Continues(ss, ls, ss', ls') ==> Alternates(StoresOf(ls'))) <==> !ss[|ls|].stop
  {
    if ss[|ls|].stop {
      var ss', ls' := StoppedStoresTwice(ss, ls, Ping');
    } else {
      forall ss', ls' | Continues(ss, ls, ss', ls') ensures Alternates(StoresOf(ls')) {
        StopStays(ss, ls, ss', ls');
        FutexAlternates(ss', ls');
      }
    }
  }

  /** A run stopped after ping's first store, and how it goes on. */
  lemma StopEndsTheExchange() returns (ss: seq<State>, ls: seq<Label>)
    ensures IsRun(Init, Step, ss, ls) && !Alternates(StoresOf(ls))
    ensures [Increment, Stores(Ping'), Stop] <= ls
  {
    var s0 := State(0x0A, [], false, 0, 0, 0, Bump, Wait);
    var s1 := s0.(count := 1, ping := Store);
    var s2 := s1.(word := 0x0B, sentByPing := 1, ping := Wake);
    ss := [s0, s1, s2, s2.(stop := true)];
    Values();
    assert IsRun(Init, Step, ss, [Increment, Stores(Ping'), Stop]);
    ss, ls := StoppedStoresTwice(ss, [Increment, Stores(Ping'), Stop], Ping');
  }

  /** All runs that end stopped, or all that do not, have alternating words exactly if they do not. */
  lemma WordsAlternateUntilStop(stopped: bool)
    ensures (forall ss: seq<State>, ls: seq<Label> :: IsRun(Init, Step, ss, ls) && ss[|ls|].stop == stopped ==> Alternates(StoresOf(ls)))
            <==> !stopped
  {
    if stopped {
      var s0 := State(0x0A, [], false, 0, 0, 0, Bump, Wait);
      var ss, ls := [s0, s0.(stop := true)], [Stop];
      assert IsRun(Init, Step, ss, ls);
      var ss', ls' := StoppedStoresTwice(ss, ls, Ping');
      StopStays(ss, ls, ss', ls');
    } else {
      forall ss: seq<State>, ls: seq<Label> | IsRun(Init, Step, ss, ls) && ss[|ls|].stop == stopped ensures Alternates(StoresOf(ls)) {
        FutexAlternates(ss, ls);
      }
    }
  }

  /** No wake-up is lost: in every reachable state before the stop somebody has a useful step, and the
    next increment is at most eight useful steps away without the help of any retry. */
  lemma FutexProgress(ss: seq<State>, ls: seq<Label>)
    requires IsRun(Init, Step, ss, ls) && !ss[|ls|].stop
    ensures CountsWithin(RunningStep, KindOf, ss[|ls|], 8)
  {
    StillRunning(ss, ls);
    CountsFrom(ss[|ls|]);
  }

  /** Six useful steps are done or due per increment, one more for every call that failed and two more for
    every sleep that was interrupted. */
  lemma FutexThroughput(ss: seq<State>, ls: seq<Label>)
    requires IsRun(Init, Step, ss, ls) && !ss[|ls|].stop
    ensures Works(KindOf, ls) + Rank(ss[|ls|]) == 6 * ss[|ls|].count + Slips(KindOf, ls)
  {
    Unstopped(ss, ls);
    Paying();
    Throughput(RunningStep, Running, Rank, KindOf, 6, ss, ls);
    CountMoves();
    CountsMove(RunningStep, CountOf, KindOf, ss, ls);
  }
}
