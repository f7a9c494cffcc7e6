/** The unrolled spin loops: ten copies of one round in a row, then a jump back to the first. Ping and
  pong each have their own place in their own code. */
module SpinUnrolled {
  import opened Runs
  import Spin = SharedWord

  /** One round of each thread, instruction by instruction. */
  const ONE_PING: seq<Spin.PingPc> := [Spin.Bump, Spin.PingStore, Spin.PingSync, Spin.PingPoll]
  const ONE_PONG: seq<Spin.PongPc> := [Spin.PongPoll, Spin.PongStore, Spin.PongSync]
  const COPIES := 10
  const WORD_RANGE := 0x1_0000_0000_0000_0000

  function Copies<T>(one: seq<T>, n: nat): seq<T> {
    if n == 0 then [] else one + Copies(one, n - 1)
  }

  function PingLoop(): seq<Spin.PingPc> { Copies(ONE_PING, COPIES) }
  function PongLoop(): seq<Spin.PongPc> { Copies(ONE_PONG, COPIES) }

  lemma {:induction false} PingCopies(n: nat, at: nat)
    requires at < 4 * n
    ensures |Copies(ONE_PING, n)| == 4 * n && Copies(ONE_PING, n)[at] == ONE_PING[at % 4]
  {
    if n == 1 {
      assert Copies(ONE_PING, 0) == [];
    } else {
      PingCopies(n - 1, if at < 4 then 0 else at - 4);
    }
  }

  lemma {:induction false} PongCopies(n: nat, at: nat)
    requires at < 3 * n
    ensures |Copies(ONE_PONG, n)| == 3 * n && Copies(ONE_PONG, n)[at] == ONE_PONG[at % 3]
  {
    if n == 1 {
      assert Copies(ONE_PONG, 0) == [];
    } else {
      PongCopies(n - 1, if at < 3 then 0 else at - 3);
    }
  }

  /** `pingAt` and `pongAt` are the places of the next instructions. */
  datatype State = State(word: int, count: nat, replies: nat, pingAt: nat, pongAt: nat)

  predicate Placed(s: State) {
    s.pingAt < |PingLoop()| && s.pongAt < |PongLoop()|
  }

  predicate Init(s: State) {
    s == State(0, 0, 0, 0, 0)
  }

  /** Straight-line code that ends in a jump to its start. */
  function Next(at: nat, size: nat): nat {
    if at + 1 == size then 0 else at + 1
  }

  /** The effect of executing the instructions `ping` and `pong`, with the places that follow them. */
  predicate Does(s: State, l: Spin.Label, s': State,
      ping: Spin.PingPc, pong: Spin.PongPc, pingNext: nat, pongNext: nat)
  {
    match l
    case Increment => ping == Spin.Bump && s' == s.(count := s.count + 1, pingAt := pingNext)
    case PingStores => ping == Spin.PingStore && s' == s.(word := 1, pingAt := pingNext)
    case PingSyncs => ping == Spin.PingSync && s' == s.(pingAt := pingNext)
    case PingSees => ping == Spin.PingPoll && !(s.word != 0) && s' == s.(pingAt := pingNext)
    case PingMisses => ping == Spin.PingPoll && s.word != 0 && s' == s
    case PongSees => pong == Spin.PongPoll && !(s.word != 1) && s' == s.(pongAt := pongNext)
    case PongMisses => pong == Spin.PongPoll && s.word != 1 && s' == s
    case PongStores => pong == Spin.PongStore && s' == s.(word := 0, pongAt := pongNext, replies := s.replies + 1)
    case PongSyncs => pong == Spin.PongSync && s' == s.(pongAt := pongNext)
  }

  predicate Step(s: State, l: Spin.Label, s': State) {
    && Placed(s)
    && Does(s, l, s', PingLoop()[s.pingAt], PongLoop()[s.pongAt],
            Next(s.pingAt, |PingLoop()|), Next(s.pongAt, |PongLoop()|))
  }

  /** The one-round loops at the same point of their round. */
  function Erase(s: State): Spin.State {
    Spin.State(s.word, s.count, s.replies, ONE_PING[s.pingAt % 4], ONE_PONG[s.pongAt % 3])
  }

  /** `copy` is the running copy of a thread that has counted `done` rounds; it counts a round when it
    leaves place `last` of a copy. */
  predicate InCopy(copy: nat, place: nat, last: nat, done: nat) {
    copy == if place <= last then done % 10 else (done + 9) % 10
  }

  predicate PingPlace(at: nat, done: nat) {
    at < 40 && InCopy(at / 4, at % 4, 0, done) && (at % 4 != 0 ==> done > 0)
  }

  predicate PongPlace(at: nat, done: nat) {
    at < 30 && InCopy(at / 3, at % 3, 1, done)
  }

  /** The copy a thread is in is the number of its finished rounds, modulo ten. */
  predicate Inv(s: State) {
    PingPlace(s.pingAt, s.count) && PongPlace(s.pongAt, s.replies)
  }

  /** Ten copies in a row behave like one copy indexed by the place within it. */
  lemma StepCode(s: State, l: Spin.Label, s': State)
    requires s.pingAt < 40 && s.pongAt < 30
    ensures Step(s, l, s') <==>
            Does(s, l, s', Erase(s).ping, Erase(s).pong, Next(s.pingAt, 40), Next(s.pongAt, 30))
  {
    PingCopies(COPIES, s.pingAt);
    PongCopies(COPIES, s.pongAt);
  }

  lemma PingNext(at: nat)
    requires at < 40
    ensures Next(at, 40) < 40
    ensures Next(at, 40) % 4 == if at % 4 == 3 then 0 else at % 4 + 1
    ensures Next(at, 40) / 4 == if at % 4 == 3 then (at / 4 + 1) % 10 else at / 4
  {
    var copy, place := at / 4, at % 4;
    if place == 3 {
      assert at + 1 == 4 * (copy + 1);
    } else {
      assert at + 1 == 4 * copy + (place + 1);
    }
  }

  lemma PongNext(at: nat)
    requires at < 30
    ensures Next(at, 30) < 30
    ensures Next(at, 30) % 3 == if at % 3 == 2 then 0 else at % 3 + 1
    ensures Next(at, 30) / 3 == if at % 3 == 2 then (at / 3 + 1) % 10 else at / 3
  {
    var copy, place := at / 3, at % 3;
    if place == 2 {
      assert at + 1 == 3 * (copy + 1);
    } else {
      assert at + 1 == 3 * copy + (place + 1);
    }
  }

  /** The instruction behind the one at `at`. */
  lemma PingBehind(at: nat)
    requires at < 40
    ensures ONE_PING[Next(at, 40) % 4] == match ONE_PING[at % 4]
      case Bump => Spin.PingStore
      case PingStore => Spin.PingSync
      case PingSync => Spin.PingPoll
      case PingPoll => Spin.Bump
  {
    PingNext(at);
  }

  lemma PongBehind(at: nat)
    requires at < 30
    ensures ONE_PONG[Next(at, 30) % 3] == match ONE_PONG[at % 3]
      case PongPoll => Spin.PongStore
      case PongStore => Spin.PongSync
      case PongSync => Spin.PongPoll
  {
    PongNext(at);
  }

  lemma Decade(n: nat)
    ensures (n + 1) % 10 == (if n % 10 == 9 then 0 else n % 10 + 1)
    ensures (n + 1 + 9) % 10 == n % 10
    ensures ((n + 9) % 10 + 1) % 10 == n % 10
  {
  }

  lemma PingAdvances(at: nat, done: nat)
    requires PingPlace(at, done)
    ensures PingPlace(Next(at, 40), if at % 4 == 0 then done + 1 else done)
  {
    PingNext(at);
    Decade(done);
  }

  lemma PongAdvances(at: nat, done: nat)
    requires PongPlace(at, done)
    ensures PongPlace(Next(at, 30), if at % 3 == 1 then done + 1 else done)
  {
    PongNext(at);
    Decade(done);
  }

  /** A thread counts exactly when it leaves the counting instruction of a copy. */
  lemma PingMoves(s: State, l: Spin.Label, s': State)
    requires s.pingAt < 40 && s.pongAt < 30 && Step(s, l, s')
    ensures || (s'.pingAt == s.pingAt && s'.count == s.count)
            || (s'.pingAt == Next(s.pingAt, 40) && s'.count == if s.pingAt % 4 == 0 then s.count + 1 else s.count)
  {
    StepCode(s, l, s');
  }

  lemma PongMoves(s: State, l: Spin.Label, s': State)
    requires s.pingAt < 40 && s.pongAt < 30 && Step(s, l, s')
    ensures || (s'.pongAt == s.pongAt && s'.replies == s.replies)
            || (s'.pongAt == Next(s.pongAt, 30) && s'.replies == if s.pongAt % 3 == 1 then s.replies + 1 else s.replies)
  {
    StepCode(s, l, s');
  }

  /** One step of the unrolled loops is the same step of the one-round loops. */
  lemma StepErases(s: State, l: Spin.Label, s': State)
    requires Inv(s) && Step(s, l, s')
    ensures Spin.Step(Erase(s), l, Erase(s'))
  {
    StepCode(s, l, s');
    PingBehind(s.pingAt);
    PongBehind(s.pongAt);
  }

  lemma PingKeeps(s: State, l: Spin.Label, s': State)
    requires Inv(s) && Step(s, l, s')
    ensures PingPlace(s'.pingAt, s'.count)
  {
    PingMoves(s, l, s');
    PingAdvances(s.pingAt, s.count);
  }

  lemma PongKeeps(s: State, l: Spin.Label, s': State)
    requires Inv(s) && Step(s, l, s')
    ensures PongPlace(s'.pongAt, s'.replies)
  {
    PongMoves(s, l, s');
    PongAdvances(s.pongAt, s.replies);
  }

  lemma StepKeeps(s: State, l: Spin.Label, s': State)
    requires Inv(s) && Step(s, l, s')
    ensures Inv(s')
  {
    PingKeeps(s, l, s');
    PongKeeps(s, l, s');
  }

  /** Conversely the unrolled loops can follow every step of the one-round loops. */
  lemma StepLifts(s: State, l: Spin.Label, t': Spin.State) returns (s': State)
    requires s.pingAt < 40 && s.pongAt < 30 && Spin.Step(Erase(s), l, t')
    ensures Step(s, l, s') && Erase(s') == t'
  {
    var (p, q) := (Next(s.pingAt, 40), Next(s.pongAt, 30));
    s' := match l
      case Increment => s.(count := s.count + 1, pingAt := p)
      case PingStores => s.(word := 1, pingAt := p)
      case PingSyncs => s.(pingAt := p)
      case PingSees => s.(pingAt := p)
      case PongSees => s.(pongAt := q)
      case PongStores => s.(word := 0, pongAt := q, replies := s.replies + 1)
      case PongSyncs => s.(pongAt := q)
      case _ => s;
    StepCode(s, l, s');
    PingBehind(s.pingAt);
    PongBehind(s.pongAt);
  }

  lemma RunInv(ss: seq<State>, ls: seq<Spin.Label>)
    requires IsRun(Init, Step, ss, ls)
    ensures forall i :: 0 <= i < |ss| ==> Inv(ss[i])
  {
    forall s, l, s' | Inv(s) && Step(s, l, s') ensures Inv(s') {
      StepKeeps(s, l, s');
    }
    RunsKeep(Init, Step, Inv, ss, ls);
  }

  lemma ReachableInv(s: State)
    requires Reachable(Init, Step, s)
    ensures Inv(s)
  {
    var ss, ls :| IsRun(Init, Step, ss, ls) && ss[|ls|] == s;
    RunInv(ss, ls);
  }

  // ---- main results ----

  /** Unrolling adds no behaviour: forgetting the copies turns every run into a run of the plain loops. */
  lemma UnrolledRunsAreSpinRuns(ss: seq<State>, ls: seq<Spin.Label>)
    requires IsRun(Init, Step, ss, ls)
    ensures IsRun(Spin.Init, Spin.Step, Map(Erase, ss), ls)
    ensures Alternates(Trace(Map(Spin.MoveOf, ls)))
  {
    RunInv(ss, ls);
    var ts := Map(Erase, ss);
    forall i | 0 <= i < |ls| ensures Spin.Step(ts[i], ls[i], ts[i + 1]) {
      StepErases(ss[i], ls[i], ss[i + 1]);
    }
    Spin.SpinAlternates(ts, ls);
  }

  lemma EraseAppend(ss: seq<State>, s': State)
    ensures Map(Erase, ss + [s']) == Map(Erase, ss) + [Erase(s')]
  {
  }

  lemma AsLongAs(ts: seq<Spin.State>, n: nat)
    requires |ts| == n + 2
    ensures ts == ts[..n + 1] + [ts[n + 1]]
  {
  }

  /** A lifted run, extended by one lifted step. */
  lemma LiftOne(ss0: seq<State>, ls0: seq<Spin.Label>, l: Spin.Label, t': Spin.State) returns (ss: seq<State>)
    requires IsRun(Init, Step, ss0, ls0) && Spin.Step(Erase(ss0[|ls0|]), l, t')
    ensures IsRun(Init, Step, ss, ls0 + [l]) && Map(Erase, ss) == Map(Erase, ss0) + [t']
  {
    ReachableByRun(ss0, ls0);
    var s' := StepLifts(ss0[|ls0|], l, t');
    Append(Init, Step, ss0, ls0, l, s');
    EraseAppend(ss0, s');
    ss := ss0 + [s'];
  }

  /** Unrolling loses no behaviour: every run of the plain loops is a run of the unrolled ones. */
  lemma {:induction false} SpinRunsAreUnrolledRuns(ts: seq<Spin.State>, ls: seq<Spin.Label>) returns (ss: seq<State>)
    requires IsRun(Spin.Init, Spin.Step, ts, ls)
    ensures IsRun(Init, Step, ss, ls) && Map(Erase, ss) == ts
    decreases |ls|
  {
    if |ls| == 0 {
      ss := [State(0, 0, 0, 0, 0)];
    } else {
      var n := |ls| - 1;
      var ss0 := SpinRunsAreUnrolledRuns(ts[..n + 1], ls[..n]);
      assert Erase(ss0[n]) == Map(Erase, ss0)[n] == ts[n];
      assert Spin.Step(ts[n], ls[n], ts[n + 1]);
      ss := LiftOne(ss0, ls[..n], ls[n], ts[n + 1]);
      assert ls[..n] + [ls[n]] == ls;
      AsLongAs(ts, n);
    }
  }

  lemma ReachableByRun(ss: seq<State>, ls: seq<Spin.Label>)
    requires IsRun(Init, Step, ss, ls)
    ensures ss[|ls|].pingAt < 40 && ss[|ls|].pongAt < 30
  {
    RunInv(ss, ls);
    assert Inv(ss[|ls|]);
  }

  /** The value of the 64-bit counter after `count` increments. */
  function PingCount(count: nat): nat {
    count % WORD_RANGE
  }

  /** Once a copy has counted, its number is one less than the increments, modulo ten; the 64-bit
    counter itself shows this exactly while it has wrapped a multiple of five times, because its
    range is 6 modulo 10. */
  lemma CopyShowsCount(s: State)
    requires Reachable(Init, Step, s) && s.pingAt % 4 != 0
    ensures s.count > 0 && s.pingAt / 4 == (s.count - 1) % 10
    ensures s.pingAt / 4 == (PingCount(s.count) + 9) % 10 <==> (s.count / 0x1_0000_0000_0000_0000) % 5 == 0
    ensures s.pongAt / 3 == if s.pongAt % 3 == 2 then (s.replies + 9) % 10 else s.replies % 10
  {
    ReachableInv(s);
    Wrapping(s.count);
  }

  lemma Tens(t: int, y: int)
    ensures (10 * t + y) % 10 == y % 10
  {
  }

  lemma Wrapping(n: nat)
    ensures (n + 9) % 10 == (PingCount(n) + 9) % 10 <==> (n / WORD_RANGE) % 5 == 0
    ensures n > 0 ==> (n - 1) % 10 == (n + 9) % 10
  {
    var q, r := n / WORD_RANGE, n % WORD_RANGE;
    var (a, d) := (q / 5, q % 5);
    var t := 0x1999_9999_9999_9999 * q + 3 * a;
    assert n + 9 == 10 * t + (6 * d + r + 9) by {
      assert WORD_RANGE == 10 * 0x1999_9999_9999_9999 + 6;
    }
    Tens(t, 6 * d + r + 9);
    SixTimes(d, r + 9);
  }

  lemma SixTimes(d: nat, y: nat)
    requires d < 5
    ensures (6 * d + y) % 10 == y % 10 <==> d == 0
  {
  }

  /** A reachable state of the plain loops is that of a reachable state of the unrolled ones. */
  lemma LiftReachable(t: Spin.State) returns (s: State)
    requires Reachable(Spin.Init, Spin.Step, t)
    ensures Reachable(Init, Step, s) && Erase(s) == t
  {
    var ts: seq<Spin.State>, ls: seq<Spin.Label> :| IsRun(Spin.Init, Spin.Step, ts, ls) && ts[|ls|] == t;
    var ss := SpinRunsAreUnrolledRuns(ts, ls);
    s := ss[|ls|];
    assert Erase(s) == Map(Erase, ss)[|ls|] == ts[|ls|];
  }

  /** The counter does come to a state where it no longer shows the running copy: after the increment that
    wraps it to 0, ping is in copy 5, not 9. */
  lemma CopyIsLost() returns (s: State)
    ensures Reachable(Init, Step, s) && s.pingAt % 4 != 0 && s.count == 0x1_0000_0000_0000_0000
    ensures PingCount(s.count) == 0 && s.pingAt / 4 == 5 != (PingCount(s.count) + 9) % 10
  {
    Spin.RoundsComplete(WORD_RANGE - 1);
    s := LiftReachable(Spin.State(0, WORD_RANGE, WORD_RANGE - 1, Spin.PingStore, Spin.PongPoll));
    ReachableInv(s);
    assert ONE_PING[s.pingAt % 4] == Spin.PingStore;
    CopyShowsCount(s);
  }

  // ---- progress ----

  lemma EraseReachable(s: State)
    requires Reachable(Init, Step, s)
    ensures Reachable(Spin.Init, Spin.Step, Erase(s)) && s.pingAt < 40 && s.pongAt < 30
  {
    var ss, ls :| IsRun(Init, Step, ss, ls) && ss[|ls|] == s;
    UnrolledRunsAreSpinRuns(ss, ls);
    assert Map(Erase, ss)[|ls|] == Erase(s);
    ReachableInv(s);
  }

  lemma {:induction false} LiftPath(s: State, ts: seq<Spin.State>, ls: seq<Spin.Label>) returns (ss: seq<State>)
    requires Inv(s) && IsPath(Spin.Step, ts, ls) && ts[0] == Erase(s)
    ensures IsPath(Step, ss, ls) && ss[0] == s
    decreases |ls|
  {
    if |ls| == 0 {
      ss := [s];
    } else {
      assert Spin.Step(ts[0], ls[0], ts[1]);
      var s' := StepLifts(s, ls[0], ts[1]);
      StepKeeps(s, ls[0], s');
      forall i | 0 <= i < |ls| - 1 ensures Spin.Step(ts[1..][i], ls[1..][i], ts[1..][i + 1]) {
        assert Spin.Step(ts[i + 1], ls[i + 1], ts[i + 2]);
      }
      var rest := LiftPath(s', ts[1..], ls[1..]);
      ss := [s] + rest;
      forall i | 0 <= i < |ls| ensures Step(ss[i], ls[i], ss[i + 1]) {
        if i > 0 {
          assert Step(rest[i - 1], ls[1..][i - 1], rest[i]);
        }
      }
    }
  }

  /** The unrolled loops are no more stuck than the plain ones. */
  lemma UnrolledProgress(s: State)
    requires Reachable(Init, Step, s)
    ensures CountsWithin(Step, Spin.KindOf, s, 8)
  {
    EraseReachable(s);
    Spin.SpinProgress(Erase(s));
    var ts: seq<Spin.State>, ls: seq<Spin.Label> :| IsPath(Spin.Step, ts, ls) && ts[0] == Erase(s) && 0 < |ls| <= 8
      && Spin.KindOf(ls[|ls| - 1]) == Count && forall i :: 0 <= i < |ls| - 1 ==> Spin.KindOf(ls[i]) == Work;
    ReachableInv(s);
    var ss := LiftPath(s, ts, ls);
  }

  lemma UnrolledThroughput(ss: seq<State>, ls: seq<Spin.Label>)
    requires IsRun(Init, Step, ss, ls)
    ensures Works(Spin.KindOf, ls) + Spin.Rank(Erase(ss[|ls|])) == 6 * ss[|ls|].count
  {
    UnrolledRunsAreSpinRuns(ss, ls);
    Spin.SpinThroughput(Map(Erase, ss), ls);
    assert Map(Erase, ss)[|ls|] == Erase(ss[|ls|]);
  }
}
