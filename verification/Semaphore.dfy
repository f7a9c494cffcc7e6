/** The sem and busysem loops: two semaphores that start at zero, and the monitor, which puts the
  first token in after starting the threads. */
module Semaphore {
  import opened Runs

  datatype PingPc = Bump | PingWait | PingPost
  datatype PongPc = PongWait | PongPost

  /** `busy` selects the trywait loops. `passes` and `replies` count ping's and pong's posts. */
  datatype State = State(busy: bool, begun: bool, sem0: nat, sem1: nat,
                         count: nat, passes: nat, replies: nat, ping: PingPc, pong: PongPc)

  /** Fails: a wait interrupted (sem) or a trywait that finds nothing (busysem). */
  datatype Label = Begin | Increment | PingTakes | PingFails | PingPosts | PongTakes | PongFails | PongPosts

  predicate Init(s: State) {
    s == State(s.busy, false, 0, 0, 0, 0, 0, Bump, PongWait)
  }

  predicate Step(s: State, l: Label, s': State) {
    match l
    case Begin => !s.begun && s' == s.(begun := true, sem0 := s.sem0 + 1)
    case Increment => s.ping == Bump && s' == s.(count := s.count + 1, ping := PingWait)
    case PingTakes => s.ping == PingWait && s.sem0 > 0 && s' == s.(sem0 := s.sem0 - 1, ping := PingPost)
    case PingFails => s.ping == PingWait && (s.busy ==> s.sem0 == 0) && s' == s
    case PingPosts => s.ping == PingPost && s' == s.(sem1 := s.sem1 + 1, ping := Bump, passes := s.passes + 1)
    case PongTakes => s.pong == PongWait && s.sem1 > 0 && s' == s.(sem1 := s.sem1 - 1, pong := PongPost)
    case PongFails => s.pong == PongWait && (s.busy ==> s.sem1 == 0) && s' == s
    case PongPosts => s.pong == PongPost && s' == s.(sem0 := s.sem0 + 1, pong := PongWait, replies := s.replies + 1)
  }

  /** Tokens in the semaphores and in the threads' hands. */
  function Tokens(s: State): nat {
    s.sem0 + s.sem1 + (if s.ping == PingPost then 1 else 0) + (if s.pong == PongPost then 1 else 0)
  }

  predicate Inv(s: State) {
    && Tokens(s) == (if s.begun then 1 else 0)
    && s.count == s.passes + (if s.ping == Bump then 0 else 1)
    && s.passes == s.replies + s.sem1 + (if s.pong == PongPost then 1 else 0)
    && (!s.begun ==> s.passes == 0)
  }

  /** The token passes from ping to pong and back. */
  function Alpha(s: State): Game {
    Game(s.passes, s.replies)
  }

  function MoveOf(l: Label): Move {
    match l case PingPosts => Ping case PongPosts => Pong case _ => Hold
  }

  function KindOf(l: Label): Kind {
    match l case Increment => Count case PingFails => Retry(0) case PongFails => Retry(0)
    case Begin => Retry(0) case _ => Work
  }

  /** Of the four semaphore operations of a round, those still to do for every round counted. */
  function Rank(s: State): nat {
    (match s.ping case Bump => 0 case PingWait => 4 case PingPost => 3)
    + 2 * s.sem1 + (if s.pong == PongPost then 1 else 0)
  }

  predicate Begun(s: State) {
    Inv(s) && s.begun
  }

  lemma StepKeeps(s: State, l: Label, s': State)
    requires Inv(s) && Step(s, l, s')
    ensures Inv(s') && (s.begun ==> s'.begun)
    ensures GameStep(Alpha(s), MoveOf(l), Alpha(s'))
    ensures Pays(Rank(s), KindOf(l), Rank(s'), 4)
  {
  }

  lemma Simulation()
    ensures Simulates(Init, Step, Inv, Alpha, MoveOf)
  {
    forall s, l, s' | Inv(s) && Step(s, l, s') ensures Inv(s') && GameStep(Alpha(s), MoveOf(l), Alpha(s')) {
      StepKeeps(s, l, s');
    }
  }

  lemma Paying()
    ensures Paid(Step, Inv, Rank, KindOf, 4)
  {
    forall s, l, s' | Inv(s) && Step(s, l, s') ensures Inv(s') && Pays(Rank(s), KindOf(l), Rank(s'), 4) {
      StepKeeps(s, l, s');
    }
  }

  lemma PayingBegun()
    ensures Paid(Step, Begun, Rank, KindOf, 4)
  {
    forall s, l, s' | Begun(s) && Step(s, l, s') ensures Begun(s') && Pays(Rank(s), KindOf(l), Rank(s'), 4) {
      StepKeeps(s, l, s');
    }
  }

  lemma Offering()
    ensures Live(Step, Begun, KindOf)
  {
    forall s | Begun(s) ensures Useful(Step, KindOf, s) {
      var (l, s') :=
        if s.ping == Bump then (Increment, s.(count := s.count + 1, ping := PingWait))
        else if s.ping == PingPost then (PingPosts, s.(sem1 := s.sem1 + 1, ping := Bump, passes := s.passes + 1))
        else if s.sem0 > 0 then (PingTakes, s.(sem0 := s.sem0 - 1, ping := PingPost))
        else if s.sem1 > 0 && s.pong == PongWait then (PongTakes, s.(sem1 := s.sem1 - 1, pong := PongPost))
        else (PongPosts, s.(sem0 := s.sem0 + 1, pong := PongWait, replies := s.replies + 1));
      assert Step(s, l, s') && !KindOf(l).Retry?;
    }
  }

  lemma ReachableInv(s: State)
    requires Reachable(Init, Step, s)
    ensures Inv(s)
  {
    Simulation();
    ReachableKeeps(Init, Step, Inv, s);
  }

  function CountOf(s: State): nat { s.count }

  lemma CountMoves()
    ensures Counted(Step, CountOf, KindOf)
  {
  }

  // ---- main results ----

  /** There is no token before the monitor begins and exactly one ever after, whenever it begins. */
  lemma OneToken(s: State)
    requires Reachable(Init, Step, s)
    ensures Tokens(s) == if s.begun then 1 else 0
    ensures !s.begun ==> s.count <= 1 && s.passes == s.replies == 0
  {
    ReachableInv(s);
  }

  /** A wait of sem may be interrupted at any time; a trywait of busysem fails exactly if there is no token, so
    that never both outcomes are possible. */
  lemma FailsExactly(s: State)
    ensures (exists s' :: Step(s, PingFails, s')) <==> s.ping == PingWait && (!s.busy || s.sem0 == 0)
    ensures (exists s' :: Step(s, PongFails, s')) <==> s.pong == PongWait && (!s.busy || s.sem1 == 0)
    ensures s.busy ==> forall a, b ::
      !(Step(s, PingTakes, a) && Step(s, PingFails, b)) && !(Step(s, PongTakes, a) && Step(s, PongFails, b))
  {
    if s.ping == PingWait && (!s.busy || s.sem0 == 0) {
      assert Step(s, PingFails, s);
    }
    if s.pong == PongWait && (!s.busy || s.sem1 == 0) {
      assert Step(s, PongFails, s);
    }
  }

  /** The token alternates; the count runs ahead of ping's post by at most one, and so ahead of the
    replies by at most two. */
  lemma SemAlternates(ss: seq<State>, ls: seq<Label>)
    requires IsRun(Init, Step, ss, ls)
    ensures Alternates(Trace(Map(MoveOf, ls)))
    ensures var s := ss[|ls|]; s.passes <= s.count <= s.passes + 1 && s.replies <= s.count <= s.replies + 2
  {
    Simulation();
    Refinement(Init, Step, Inv, Alpha, MoveOf, ss, ls);
    RunsKeep(Init, Step, Inv, ss, ls);
    assert Inv(ss[|ls|]);
  }

  /** All three distances between count and replies occur. */
  lemma LagIsTight(busy: bool, lag: nat) returns (s: State)
    requires lag <= 2
    ensures Reachable(Init, Step, s) && s.begun && s.busy == busy && s.count == s.replies + lag
  {
    var s0 := State(busy, false, 0, 0, 0, 0, 0, Bump, PongWait);
    var s1 := s0.(begun := true, sem0 := 1);
    var s2 := s1.(count := 1, ping := PingWait);
    var s3 := s2.(sem0 := 0, ping := PingPost);
    var s4 := s3.(sem1 := 1, ping := Bump, passes := 1);
    var s5 := s4.(count := 2, ping := PingWait);
    var ss, ls := [s0, s1, s2, s3, s4, s5], [Begin, Increment, PingTakes, PingPosts, Increment];
    var n := if lag == 0 then 1 else if lag == 1 then 2 else 5;
    s := ss[n];
    assert IsRun(Init, Step, ss[..n + 1], ls[..n]);
  }

  /** Once begun the exchange is never stuck; before, it cannot pass the first wait. */
  lemma SemProgress(s: State)
    requires Reachable(Init, Step, s) && s.begun
    ensures CountsWithin(Step, KindOf, s, 7)
  {
    ReachableInv(s);
    PayingBegun();
    Offering();
    CanCount(Step, Begun, Rank, KindOf, 4, s);
    CountsWithinMore(Step, KindOf, s, Rank(s) + 1, 7);
  }

  /** In every run, four semaphore operations are done or due per increment. */
  lemma SemThroughput(ss: seq<State>, ls: seq<Label>)
    requires IsRun(Init, Step, ss, ls)
    ensures Works(KindOf, ls) + Rank(ss[|ls|]) == 4 * ss[|ls|].count
  {
    Paying();
    Throughput(Step, Inv, Rank, KindOf, 4, ss, ls);
    CountMoves();
    CountsMove(Step, CountOf, KindOf, ss, ls);
    NoSlips(KindOf, ls);
  }
}
