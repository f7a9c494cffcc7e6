/** The byte-channel loops (generic, pipe, socket pair, tcp, message queue) and the eventfd loops:
  one atomic step per increment and per send or receive attempt, on whatever descriptors
  `make_pairs` wired up. */
module Channel {
  import opened Runs
  import opened Wiring

  datatype PingPc = Bump | PingSend | PingRecv
  datatype PongPc = PongRecv | PongSend

  /** `cap` is the room of one channel (1 for a message queue); a draining read takes everything. */
  datatype Net = Net(mouth: seq<Desc>, ear: seq<Desc>, cap: nat, drain: bool)

  /** `level` is what waits in each channel, `count` the increments and `replies` pong's sends. */
  datatype State = State(net: Net, level: map<Chan, nat>, count: nat, replies: nat, ping: PingPc, pong: PongPc)

  datatype Label = Increment | Sends(who: nat) | Receives(who: nat) | Fails(who: nat)

  function Level(s: State, c: Chan): nat {
    if c in s.level then s.level[c] else 0
  }

  /** Thread `who` is at a send (or receive) call. */
  predicate AtSend(s: State, who: nat) {
    (who == 0 && s.ping == PingSend) || (who == 1 && s.pong == PongSend)
  }

  predicate AtRecv(s: State, who: nat) {
    (who == 0 && s.ping == PingRecv) || (who == 1 && s.pong == PongRecv)
  }

  /** A successful write of one byte, or of the value 1, by thread `who`. */
  predicate Send(s: State, who: nat, s': State) {
    && AtSend(s, who) && who < |s.net.mouth|
    && var c := WriteChan(s.net.mouth[who]);
    && c.Some?
    && Level(s, c.value) < s.net.cap
    && var level := s.level[c.value := Level(s, c.value) + 1];
       s' == if who == 0 then s.(level := level, ping := PingRecv)
             else s.(level := level, pong := PongRecv, replies := s.replies + 1)
  }

  /** A successful read by thread `who`: of one byte, or of the whole counter. */
  predicate Recv(s: State, who: nat, s': State) {
    && AtRecv(s, who) && who < |s.net.ear|
    && var c := ReadChan(s.net.ear[who]);
    && c.Some?
    && Level(s, c.value) > 0
    && var level := s.level[c.value := if s.net.drain then 0 else Level(s, c.value) - 1];
       s' == if who == 0 then s.(level := level, ping := Bump) else s.(level := level, pong := PongSend)
  }

  ghost predicate Init(s: State) {
    && Crossed(s.net.mouth, s.net.ear) && s.net.cap >= 1
    && (forall c :: Level(s, c) == 0)
    && s.count == s.replies == 0 && s.ping == Bump && s.pong == PongRecv
  }

  predicate Step(s: State, l: Label, s': State) {
    match l
    case Increment => s.ping == Bump && s' == s.(count := s.count + 1, ping := PingSend)
    case Sends(who) => Send(s, who, s')
    case Receives(who) => Recv(s, who, s')
    case Fails(who) => (AtSend(s, who) || AtRecv(s, who)) && s' == s
  }

  /** The channel out of thread `who`'s mouth. */
  function Out(s: State, who: nat): Chan
    requires Crossed(s.net.mouth, s.net.ear) && who < 2
  {
    WriteChan(s.net.mouth[who]).value
  }

  function InFlight(s: State): nat
    requires Crossed(s.net.mouth, s.net.ear)
  {
    Level(s, Out(s, 0)) + Level(s, Out(s, 1))
  }

  ghost predicate Inv(s: State) {
    && Crossed(s.net.mouth, s.net.ear) && s.net.cap >= 1
    && (forall c :: c != Out(s, 0) && c != Out(s, 1) ==> Level(s, c) == 0)
    && var toPong, toPing := Level(s, Out(s, 0)), Level(s, Out(s, 1));
    && (s.ping == Bump ==> s.pong == PongRecv && toPong == toPing == 0 && s.count == s.replies)
    && (s.ping == PingSend ==> s.pong == PongRecv && toPong == toPing == 0 && s.count == s.replies + 1)
    && (s.ping == PingRecv && s.pong == PongSend ==> toPong == toPing == 0 && s.count == s.replies + 1)
    && (s.ping == PingRecv && s.pong == PongRecv ==>
          || (toPong == 1 && toPing == 0 && s.count == s.replies + 1)
          || (toPong == 0 && toPing == 1 && s.count == s.replies))
  }

  function Alpha(s: State): Game
  {
    Game(s.count, s.replies)
  }

  function MoveOf(l: Label): Move {
    if l == Increment then Ping else if l == Sends(1) then Pong else Hold
  }

  function KindOf(l: Label): Kind {
    match l case Increment => Count case Fails(_) => Retry(0) case _ => Work
  }

  /** How many useful steps are left before the next increment. */
  function Rank(s: State): nat {
    match s.ping
    case Bump => 0
    case PingSend => 4
    case PingRecv =>
      if s.pong == PongSend then 2 else if s.count > s.replies then 3 else 1
  }

  lemma StepKeeps(s: State, l: Label, s': State)
    requires Inv(s) && Step(s, l, s')
    ensures Inv(s')
    ensures GameStep(Alpha(s), MoveOf(l), Alpha(s'))
    ensures Pays(Rank(s), KindOf(l), Rank(s'), 4)
  {
    forall c | c != Out(s', 0) && c != Out(s', 1) ensures Level(s', c) == 0 {
      assert Level(s, c) == 0;
    }
  }

  /** In every state of the protocol one thread has a useful step it can take at once. */
  lemma AlwaysUseful(s: State)
    requires Inv(s)
    ensures Useful(Step, KindOf, s)
  {
    var toPong, toPing := Level(s, Out(s, 0)), Level(s, Out(s, 1));
    var (l, s') :=
      if s.ping == Bump then
        (Increment, s.(count := s.count + 1, ping := PingSend))
      else if s.ping == PingSend then
        (Sends(0), s.(level := s.level[Out(s, 0) := 1], ping := PingRecv))
      else if s.pong == PongSend then
        (Sends(1), s.(level := s.level[Out(s, 1) := 1], pong := PongRecv, replies := s.replies + 1))
      else if toPong == 1 then
        (Receives(1), s.(level := s.level[Out(s, 0) := 0], pong := PongSend))
      else
        (Receives(0), s.(level := s.level[Out(s, 1) := 0], ping := Bump));
    assert Step(s, l, s') && !KindOf(l).Retry?;
  }

  lemma Simulation()
    ensures Simulates(Init, Step, Inv, Alpha, MoveOf)
  {
    forall s, l, s' | Inv(s) && Step(s, l, s') ensures Inv(s') && GameStep(Alpha(s), MoveOf(l), Alpha(s')) {
      StepKeeps(s, l, s');
    }
  }

  lemma Paying()
    ensures Paid(Step, Inv, Rank, KindOf, 4)
  {
    forall s, l, s' | Inv(s) && Step(s, l, s') ensures Inv(s') && Pays(Rank(s), KindOf(l), Rank(s'), 4) {
      StepKeeps(s, l, s');
    }
  }

  lemma Offering()
    ensures Live(Step, Inv, KindOf)
  {
    forall s | Inv(s) ensures Useful(Step, KindOf, s) {
      AlwaysUseful(s);
    }
  }

  lemma ReachableInv(s: State)
    requires Reachable(Init, Step, s)
    ensures Inv(s)
  {
    Simulation();
    ReachableKeeps(Init, Step, Inv, s);
  }

  lemma RunInv(ss: seq<State>, ls: seq<Label>)
    requires IsRun(Init, Step, ss, ls)
    ensures forall i :: 0 <= i < |ss| ==> Inv(ss[i])
  {
    Simulation();
    RunsKeep(Init, Step, Inv, ss, ls);
  }

  function CountOf(s: State): nat { s.count }

  lemma CountMoves()
    ensures Counted(Step, CountOf, KindOf)
  {
  }

  /** A send succeeds exactly if its channel has room, and a receive exactly if something waits there. A send
    adds one; a receive takes one, or all of an eventfd counter; no other channel changes. */
  lemma CallsSucceedExactly(s: State, who: nat)
    requires Crossed(s.net.mouth, s.net.ear) && who < 2
    ensures (exists s' :: Send(s, who, s')) <==> AtSend(s, who) && Level(s, Out(s, who)) < s.net.cap
    ensures (exists s' :: Recv(s, who, s')) <==> AtRecv(s, who) && Level(s, Out(s, 1 - who)) > 0
    ensures forall s' :: Send(s, who, s') ==> Moves(s, Out(s, who), Level(s, Out(s, who)) + 1, s')
    ensures forall s' :: Recv(s, who, s') ==>
      var c := Out(s, 1 - who); Moves(s, c, if s.net.drain then 0 else Level(s, c) - 1, s')
  {
    var (out, in') := (Out(s, who), Out(s, 1 - who));
    if AtSend(s, who) && Level(s, out) < s.net.cap {
      var level := s.level[out := Level(s, out) + 1];
      assert Send(s, who, if who == 0 then s.(level := level, ping := PingRecv)
                          else s.(level := level, pong := PongRecv, replies := s.replies + 1));
    }
    if AtRecv(s, who) && Level(s, in') > 0 {
      var level := s.level[in' := if s.net.drain then 0 else Level(s, in') - 1];
      assert Recv(s, who, if who == 0 then s.(level := level, ping := Bump) else s.(level := level, pong := PongSend));
    }
  }

  /** The channel `c` now holds `n`, and every other one what it held. */
  ghost predicate Moves(s: State, c: Chan, n: nat, s': State) {
    Level(s', c) == n && forall d :: d != c ==> Level(s', d) == Level(s, d)
  }

  // ---- main results ----

  /** In every run, whatever attempts fail, increments and replies strictly alternate. */
  lemma ChannelAlternates(ss: seq<State>, ls: seq<Label>)
    requires IsRun(Init, Step, ss, ls)
    ensures Alternates(Trace(Map(MoveOf, ls)))
    ensures ss[|ls|].count == (|Trace(Map(MoveOf, ls))| + 1) / 2
    ensures ss[|ls|].replies == |Trace(Map(MoveOf, ls))| / 2
  {
    Simulation();
    Refinement(Init, Step, Inv, Alpha, MoveOf, ss, ls);
  }

  /** At most one byte is in flight over both channels, every other channel is empty, and a thread
    about to send finds its channel empty: a queue of capacity one is never full for a sender. */
  lemma OneByteInFlight(s: State, who: nat)
    requires Reachable(Init, Step, s)
    ensures Crossed(s.net.mouth, s.net.ear) && InFlight(s) <= 1
    ensures forall c :: c != Out(s, 0) && c != Out(s, 1) ==> Level(s, c) == 0
    ensures who < 2 && AtSend(s, who) ==> Level(s, Out(s, who)) == 0 < s.net.cap
    ensures InFlight(s) == 1 <==> AtRecv(s, 0) && AtRecv(s, 1)
    ensures s.replies <= s.count <= s.replies + 1
  {
    ReachableInv(s);
  }

  /** No reachable state is stuck: the next increment is at most five useful steps away, and over any
    run the useful steps done and outstanding are exactly four per increment. */
  lemma ChannelProgress(s: State)
    requires Reachable(Init, Step, s)
    ensures CountsWithin(Step, KindOf, s, 5)
  {
    ReachableInv(s);
    Paying();
    Offering();
    CanCount(Step, Inv, Rank, KindOf, 4, s);
    CountsWithinMore(Step, KindOf, s, Rank(s) + 1, 5);
  }

  lemma ChannelThroughput(ss: seq<State>, ls: seq<Label>)
    requires IsRun(Init, Step, ss, ls)
    ensures Works(KindOf, ls) + Rank(ss[|ls|]) == 4 * ss[|ls|].count
  {
    Paying();
    Throughput(Step, Inv, Rank, KindOf, 4, ss, ls);
    CountMoves();
    CountsMove(Step, CountOf, KindOf, ss, ls);
    NoSlips(KindOf, ls);
  }

  // ---- eventfd ----

  /** The same system, read by a counting channel instead of a draining one. */
  function Counting(s: State): State {
    s.(net := s.net.(drain := false))
  }

  ghost predicate Draining(s: State) { s.net.drain }

  /** An eventfd counter never exceeds one, so draining it loses nothing: the eventfd loops and the
    counting-channel loops have step for step the same runs. */
  lemma EventfdIsCounting(ss: seq<State>, ls: seq<Label>)
    requires forall i :: 0 <= i < |ss| ==> Draining(ss[i])
    ensures IsRun(Init, Step, ss, ls) <==> IsRun(Init, Step, Map(Counting, ss), ls)
    ensures IsRun(Init, Step, ss, ls) ==> forall i, c :: 0 <= i < |ss| ==> Level(ss[i], c) <= 1
  {
    var cs := Map(Counting, ss);
    if IsRun(Init, Step, ss, ls) {
      RunInv(ss, ls);
      forall i | 0 <= i < |ls| ensures Step(cs[i], ls[i], cs[i + 1]) {
        assert Inv(ss[i]) && Step(ss[i], ls[i], ss[i + 1]);
        SameStep(ss[i], ls[i], ss[i + 1]);
      }
      SameStart(ss[0]);
      forall i, c | 0 <= i < |ss| ensures Level(ss[i], c) <= 1 {
        assert Inv(ss[i]);
      }
    }
    if IsRun(Init, Step, cs, ls) {
      RunInv(cs, ls);
      forall i | 0 <= i < |ls| ensures Step(ss[i], ls[i], ss[i + 1]) {
        assert Inv(cs[i]) && Step(cs[i], ls[i], cs[i + 1]);
        assert Draining(ss[i + 1]) && Draining(ss[i]);
        SameStep(ss[i], ls[i], ss[i + 1]);
      }
      SameStart(ss[0]);
    }
  }

  lemma SameStart(s: State)
    ensures Init(s) <==> Init(Counting(s))
  {
    assert forall c :: Level(Counting(s), c) == Level(s, c);
  }

  lemma SameStep(s: State, l: Label, s': State)
    requires Draining(s) && Draining(s') && (Inv(s) || Inv(Counting(s)))
    ensures Step(s, l, s') <==> Step(Counting(s), l, Counting(s'))
  {
    assert forall c :: Level(Counting(s), c) == Level(s, c);
    assert Inv(s) <==> Inv(Counting(s));
    assert s' == Counting(s').(net := Counting(s').net.(drain := true));
  }
}
