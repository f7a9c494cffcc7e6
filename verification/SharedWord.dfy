/** The spin and yield loops: two threads take turns over one shared word. The memory-sync code of
  spin and the `sched_yield` of yield are a step of their own without effect on shared state. */
module SharedWord {
  import opened Runs

  datatype PingPc = Bump | PingStore | PingSync | PingPoll
  datatype PongPc = PongPoll | PongStore | PongSync

  datatype State = State(word: int, count: nat, replies: nat, ping: PingPc, pong: PongPc)

  /** A poll that sees the awaited value ends the waiting loop; one that misses goes round again. */
  datatype Label =
    | Increment | PingStores | PingSyncs | PingSees | PingMisses
    | PongSees | PongMisses | PongStores | PongSyncs

  predicate Init(s: State) {
    s == State(0, 0, 0, Bump, PongPoll)
  }

  predicate Step(s: State, l: Label, s': State) {
    match l
    case Increment => s.ping == Bump && s' == s.(count := s.count + 1, ping := PingStore)
    case PingStores => s.ping == PingStore && s' == s.(word := 1, ping := PingSync)
    case PingSyncs => s.ping == PingSync && s' == s.(ping := PingPoll)
    case PingSees => s.ping == PingPoll && !(s.word != 0) && s' == s.(ping := Bump)
    case PingMisses => s.ping == PingPoll && s.word != 0 && s' == s
    case PongSees => s.pong == PongPoll && !(s.word != 1) && s' == s.(pong := PongStore)
    case PongMisses => s.pong == PongPoll && s.word != 1 && s' == s
    case PongStores => s.pong == PongStore && s' == s.(word := 0, pong := PongSync, replies := s.replies + 1)
    case PongSyncs => s.pong == PongSync && s' == s.(pong := PongPoll)
  }

  /** Pong is between seeing a one and overwriting it only while ping waits. */
  predicate Inv(s: State) {
    && (s.word == 0 || s.word == 1)
    && (s.word == 1 ==> (s.ping == PingSync || s.ping == PingPoll) && s.count == s.replies + 1)
    && (s.word == 0 ==> s.pong != PongStore && s.count == s.replies + if s.ping == PingStore then 1 else 0)
  }

  function Alpha(s: State): Game {
    Game(s.count, s.replies)
  }

  function MoveOf(l: Label): Move {
    match l case Increment => Ping case PongStores => Pong case _ => Hold
  }

  function KindOf(l: Label): Kind {
    match l case Increment => Count case PingMisses => Retry(0) case PongMisses => Retry(0) case _ => Work
  }

  /** The useful steps left: ping's until it increments again, and pong's until it has answered the
    open ping and waits for the next one. */
  function Rank(s: State): nat {
    (match s.ping case Bump => 0 case PingStore => 3 case PingSync => 2 case PingPoll => 1)
    + (match s.pong case PongPoll => 0 case PongStore => 2 case PongSync => 1)
    + if s.count > s.replies && s.pong != PongStore then 3 else 0
  }

  lemma StepKeeps(s: State, l: Label, s': State)
    requires Inv(s) && Step(s, l, s')
    ensures Inv(s')
    ensures GameStep(Alpha(s), MoveOf(l), Alpha(s'))
    ensures Pays(Rank(s), KindOf(l), Rank(s'), 6)
  {
  }

  lemma AlwaysUseful(s: State)
    requires Inv(s)
    ensures Useful(Step, KindOf, s)
  {
    var (l, s') := match s.ping
      case Bump => (Increment, s.(count := s.count + 1, ping := PingStore))
      case PingStore => (PingStores, s.(word := 1, ping := PingSync))
      case PingSync => (PingSyncs, s.(ping := PingPoll))
      case PingPoll =>
        if s.word == 0 then (PingSees, s.(ping := Bump))
        else match s.pong
          case PongPoll => (PongSees, s.(pong := PongStore))
          case PongStore => (PongStores, s.(word := 0, pong := PongSync, replies := s.replies + 1))
          case PongSync => (PongSyncs, s.(pong := PongPoll));
    assert Step(s, l, s') && !KindOf(l).Retry?;
  }

  lemma Simulation()
    ensures Simulates(Init, Step, Inv, Alpha, MoveOf)
  {
    forall s, l, s' | Inv(s) && Step(s, l, s') ensures Inv(s') && GameStep(Alpha(s), MoveOf(l), Alpha(s')) {
      StepKeeps(s, l, s');
    }
  }

  lemma Paying()
    ensures Paid(Step, Inv, Rank, KindOf, 6)
  {
    forall s, l, s' | Inv(s) && Step(s, l, s') ensures Inv(s') && Pays(Rank(s), KindOf(l), Rank(s'), 6) {
      StepKeeps(s, l, s');
    }
  }

  lemma Offering()
    ensures Live(Step, Inv, KindOf)
  {
    forall s | Inv(s) ensures Useful(Step, KindOf, s) {
      AlwaysUseful(s);
    }
  }

  lemma ReachableInv(s: State)
    requires Reachable(Init, Step, s)
    ensures Inv(s)
  {
    Simulation();
    ReachableKeeps(Init, Step, Inv, s);
  }

  predicate OfPing(l: Label) {
    l == Increment || l == PingStores || l == PingSyncs || l == PingSees || l == PingMisses
  }

  function NextOf(s: State, ofPing: bool): Label {
    if ofPing then
      match s.ping case Bump => Increment case PingStore => PingStores case PingSync => PingSyncs
      case PingPoll => if s.word == 0 then PingSees else PingMisses
    else
      match s.pong case PongStore => PongStores case PongSync => PongSyncs
      case PongPoll => if s.word == 1 then PongSees else PongMisses
  }

  function CountOf(s: State): nat { s.count }

  lemma CountMoves()
    ensures Counted(Step, CountOf, KindOf)
  {
  }

  // ---- main results ----

  /** Each thread has exactly one next step in every state: a poll misses exactly if it cannot see. */
  lemma OneStepEach(s: State, ofPing: bool)
    ensures exists s' :: Step(s, NextOf(s, ofPing), s') && OfPing(NextOf(s, ofPing)) == ofPing
    ensures forall l, s', s'' :: Step(s, l, s') && OfPing(l) == ofPing && Step(s, NextOf(s, ofPing), s'')
              ==> l == NextOf(s, ofPing) && s' == s''
  {
    var s' := match NextOf(s, ofPing)
      case Increment => s.(count := s.count + 1, ping := PingStore)
      case PingStores => s.(word := 1, ping := PingSync)
      case PingSyncs => s.(ping := PingPoll)
      case PingSees => s.(ping := Bump)
      case PongSees => s.(pong := PongStore)
      case PongStores => s.(word := 0, pong := PongSync, replies := s.replies + 1)
      case PongSyncs => s.(pong := PongPoll)
      case _ => s;
    assert Step(s, NextOf(s, ofPing), s');
  }

  /** However often either thread polls in vain, increments and replies strictly alternate, and the word
    is 1 exactly while a ping is stored and not yet answered. */
  lemma SpinAlternates(ss: seq<State>, ls: seq<Label>)
    requires IsRun(Init, Step, ss, ls)
    ensures var s := ss[|ls|]; s.word == (if s.count > s.replies && s.ping != PingStore then 1 else 0)
    ensures Alternates(Trace(Map(MoveOf, ls)))
    ensures ss[|ls|].count == (|Trace(Map(MoveOf, ls))| + 1) / 2
    ensures ss[|ls|].replies == |Trace(Map(MoveOf, ls))| / 2
  {
    Simulation();
    Refinement(Init, Step, Inv, Alpha, MoveOf, ss, ls);
    RunsKeep(Init, Step, Inv, ss, ls);
    assert Inv(ss[|ls|]);
  }

  /** No reachable state is stuck, and a round costs exactly the six steps the two loops contain. */
  lemma SpinProgress(s: State)
    requires Reachable(Init, Step, s)
    ensures CountsWithin(Step, KindOf, s, 8)
  {
    ReachableInv(s);
    Paying();
    Offering();
    CanCount(Step, Inv, Rank, KindOf, 6, s);
    CountsWithinMore(Step, KindOf, s, Rank(s) + 1, 8);
  }

  lemma SpinThroughput(ss: seq<State>, ls: seq<Label>)
    requires IsRun(Init, Step, ss, ls)
    ensures Works(KindOf, ls) + Rank(ss[|ls|]) == 6 * ss[|ls|].count
  {
    Paying();
    Throughput(Step, Inv, Rank, KindOf, 6, ss, ls);
    CountMoves();
    CountsMove(Step, CountOf, KindOf, ss, ls);
    NoSlips(KindOf, ls);
  }

  /** Any number of rounds can be completed, and counted. */
  lemma {:induction false} RoundsComplete(n: nat)
    ensures Reachable(Init, Step, State(0, n, n, Bump, PongPoll))
    ensures Reachable(Init, Step, State(0, n + 1, n, PingStore, PongPoll))
  {
    var s := State(0, n, n, Bump, PongPoll);
    if n == 0 {
      Start(Init, Step, s);
    } else {
      RoundsComplete(n - 1);
      var ss := [State(0, n, n - 1, PingStore, PongPoll), State(1, n, n - 1, PingSync, PongPoll),
                 State(1, n, n - 1, PingPoll, PongPoll), State(1, n, n - 1, PingPoll, PongStore),
                 State(0, n, n, PingPoll, PongSync), State(0, n, n, PingPoll, PongPoll), s];
      var ls := [PingStores, PingSyncs, PongSees, PongStores, PongSyncs, PingSees];
      assert IsPath(Step, ss, ls);
      ExtendPath(Init, Step, ss, ls);
    }
    Extend(Init, Step, s, Increment, State(0, n + 1, n, PingStore, PongPoll));
  }
}
