/** Runs of a transition system, and the four arguments every protocol of this project uses:
  an inductive invariant holds in every reachable state; a step-by-step simulation of the
  turn-taking game makes every trace alternate; a rank bounds the useful steps between two
  increments of the counter; and a system that always has a useful step can always count again. */
module Runs {

  /** `ls` leads from `ss[0]` through the states `ss`. */
  ghost predicate IsPath<S(!new), L(!new)>(step: (S, L, S) -> bool, ss: seq<S>, ls: seq<L>) {
    && |ss| == |ls| + 1
    && forall i :: 0 <= i < |ls| ==> step(ss[i], ls[i], ss[i + 1])
  }

  ghost predicate IsRun<S(!new), L(!new)>(init: S -> bool, step: (S, L, S) -> bool, ss: seq<S>, ls: seq<L>) {
    IsPath(step, ss, ls) && init(ss[0])
  }

  ghost predicate Reachable<S(!new), L(!new)>(init: S -> bool, step: (S, L, S) -> bool, s: S) {
    exists ss: seq<S>, ls: seq<L> :: IsRun(init, step, ss, ls) && ss[|ls|] == s
  }

  ghost predicate Inductive<S(!new), L(!new)>(init: S -> bool, step: (S, L, S) -> bool, inv: S -> bool) {
    && (forall s :: init(s) ==> inv(s))
    && (forall s, l, s' :: inv(s) && step(s, l, s') ==> inv(s'))
  }

  lemma {:induction false} RunsKeep<S(!new), L(!new)>(
      init: S -> bool, step: (S, L, S) -> bool, inv: S -> bool, ss: seq<S>, ls: seq<L>)
    requires Inductive(init, step, inv) && IsRun(init, step, ss, ls)
    ensures forall i :: 0 <= i < |ss| ==> inv(ss[i])
    decreases |ls|
  {
    if |ls| > 0 {
      var n := |ls| - 1;
      RunsKeep(init, step, inv, ss[..n + 1], ls[..n]);
      assert step(ss[n], ls[n], ss[n + 1]) && ss[..n + 1][n] == ss[n];
      assert forall i :: 0 <= i < n + 1 ==> ss[..n + 1][i] == ss[i];
    }
  }

  lemma ReachableKeeps<S(!new), L(!new)>(init: S -> bool, step: (S, L, S) -> bool, inv: S -> bool, s: S)
    requires Inductive(init, step, inv) && Reachable(init, step, s)
    ensures inv(s)
  {
    var ss: seq<S>, ls: seq<L> :| IsRun(init, step, ss, ls) && ss[|ls|] == s;
    RunsKeep(init, step, inv, ss, ls);
  }

  lemma Append<S(!new), L(!new)>(
      init: S -> bool, step: (S, L, S) -> bool, ss: seq<S>, ls: seq<L>, l: L, s': S)
    requires IsRun(init, step, ss, ls) && step(ss[|ls|], l, s')
    ensures IsRun(init, step, ss + [s'], ls + [l])
  {
    var ss', ls' := ss + [s'], ls + [l];
    forall i | 0 <= i < |ls'| ensures step(ss'[i], ls'[i], ss'[i + 1]) {
      if i < |ls| {
        assert step(ss[i], ls[i], ss[i + 1]);
      }
    }
  }

  /** A step out of a reachable state leads to a reachable state. */
  lemma Extend<S(!new), L(!new)>(init: S -> bool, step: (S, L, S) -> bool, s: S, l: L, s': S)
    requires Reachable(init, step, s) && step(s, l, s')
    ensures Reachable(init, step, s')
  {
    var ss: seq<S>, ls: seq<L> :| IsRun(init, step, ss, ls) && ss[|ls|] == s;
    Append(init, step, ss, ls, l, s');
    assert (ss + [s'])[|ls + [l]|] == s';
  }

  lemma {:induction false} ExtendPath<S(!new), L(!new)>(
      init: S -> bool, step: (S, L, S) -> bool, ss: seq<S>, ls: seq<L>)
    requires IsPath(step, ss, ls) && Reachable(init, step, ss[0])
    ensures Reachable(init, step, ss[|ls|])
    decreases |ls|
  {
    if |ls| > 0 {
      var n := |ls| - 1;
      ExtendPath(init, step, ss[..n + 1], ls[..n]);
      Extend(init, step, ss[n], ls[n], ss[n + 1]);
    }
  }

  lemma Start<S(!new), L(!new)>(init: S -> bool, step: (S, L, S) -> bool, s: S)
    requires init(s)
    ensures Reachable(init, step, s)
  {
    var ss: seq<S>, ls: seq<L> := [s], [];
    assert IsRun(init, step, ss, ls) && ss[|ls|] == s;
  }

  function Map<A, B>(f: A -> B, xs: seq<A>): (ys: seq<B>)
    ensures |ys| == |xs| && forall i :: 0 <= i < |xs| ==> ys[i] == f(xs[i])
  {
    seq(|xs|, i requires 0 <= i < |xs| => f(xs[i]))
  }

  // ---- the turn-taking game ----

  /** The abstract exchange: how often ping has had the turn, and how often pong has answered. */
  datatype Game = Game(pings: nat, pongs: nat)

  datatype Move = Ping | Pong | Hold

  predicate GameInit(g: Game) { g == Game(0, 0) }

  /** Ping may move only when everything is answered, pong only when one ping is open. */
  predicate GameStep(g: Game, m: Move, g': Game) {
    match m
    case Ping => g.pings == g.pongs && g' == g.(pings := g.pings + 1)
    case Pong => g.pings == g.pongs + 1 && g' == g.(pongs := g.pongs + 1)
    case Hold => g' == g
  }

  /** The moves that pass the turn. */
  function Trace(ms: seq<Move>): seq<Move> {
    if ms == [] then []
    else Trace(ms[..|ms| - 1]) + if ms[|ms| - 1] == Hold then [] else [ms[|ms| - 1]]
  }

  /** PING PONG PING PONG ... */
  predicate Alternates(ms: seq<Move>) {
    forall i :: 0 <= i < |ms| ==> ms[i] == if i % 2 == 0 then Ping else Pong
  }

  lemma {:induction false} GameAlternates(gs: seq<Game>, ms: seq<Move>)
    requires IsRun(GameInit, GameStep, gs, ms)
    ensures Alternates(Trace(ms))
    ensures gs[|ms|] == Game((|Trace(ms)| + 1) / 2, |Trace(ms)| / 2)
    decreases |ms|
  {
    if |ms| > 0 {
      var n := |ms| - 1;
      GameAlternates(gs[..n + 1], ms[..n]);
      assert GameStep(gs[n], ms[n], gs[n + 1]);
    }
  }

  /** Conversely every alternating trace, with any number of holds mixed in, is a run of the game. */
  lemma {:induction false} AlternatingIsAGame(ms: seq<Move>) returns (gs: seq<Game>)
    requires Alternates(Trace(ms))
    ensures IsRun(GameInit, GameStep, gs, ms)
    decreases |ms|
  {
    if |ms| == 0 {
      gs := [Game(0, 0)];
    } else {
      var n := |ms| - 1;
      assert Trace(ms)[..|Trace(ms[..n])|] == Trace(ms[..n]);
      forall i | 0 <= i < |Trace(ms[..n])|
        ensures Trace(ms[..n])[i] == if i % 2 == 0 then Ping else Pong
      {
        assert Trace(ms)[i] == Trace(ms[..n])[i];
      }
      var gs0 := AlternatingIsAGame(ms[..n]);
      GameAlternates(gs0, ms[..n]);
      var g := gs0[n];
      if ms[n] != Hold {
        assert Trace(ms)[|Trace(ms[..n])|] == ms[n];
      }
      var g' := match ms[n] case Ping => g.(pings := g.pings + 1) case Pong => g.(pongs := g.pongs + 1) case Hold => g;
      gs := gs0 + [g'];
      assert GameStep(g, ms[n], g');
    }
  }

  /** Moves by the same side in a row do not alternate. */
  lemma TwiceBreaks(ms: seq<Move>, m: Move)
    ensures !Alternates(ms + [m, m])
  {
    var twice := ms + [m, m];
    assert twice[|ms|] == m && twice[|ms| + 1] == m;
    assert (|ms| + 1) % 2 == 1 - |ms| % 2;
  }

  /** `alpha` and `move` translate every step of the system into a step of the game. */
  ghost predicate Simulates<S(!new), L(!new)>(
      init: S -> bool, step: (S, L, S) -> bool, inv: S -> bool, alpha: S -> Game, move: L -> Move)
  {
    && Inductive(init, step, inv)
    && (forall s :: init(s) ==> GameInit(alpha(s)))
    && (forall s, l, s' :: inv(s) && step(s, l, s') ==> GameStep(alpha(s), move(l), alpha(s')))
  }

  /** A system that simulates the game hands the turn back and forth in every run. */
  lemma Refinement<S(!new), L(!new)>(
      init: S -> bool, step: (S, L, S) -> bool, inv: S -> bool, alpha: S -> Game, move: L -> Move,
      ss: seq<S>, ls: seq<L>)
    requires Simulates(init, step, inv, alpha, move) && IsRun(init, step, ss, ls)
    ensures IsRun(GameInit, GameStep, Map(alpha, ss), Map(move, ls))
    ensures Alternates(Trace(Map(move, ls)))
    ensures alpha(ss[|ls|]).pings == (|Trace(Map(move, ls))| + 1) / 2
    ensures alpha(ss[|ls|]).pongs == |Trace(Map(move, ls))| / 2
  {
    RunsKeep(init, step, inv, ss, ls);
    var gs, ms := Map(alpha, ss), Map(move, ls);
    forall i | 0 <= i < |ms| ensures GameStep(gs[i], ms[i], gs[i + 1]) {
      assert inv(ss[i]) && step(ss[i], ls[i], ss[i + 1]);
    }
    GameAlternates(gs, ms);
  }

  // ---- progress ----

  /** What a step means for progress: it increments the counter, which takes on the work of a round;
    it does one piece of that work; or it is a failed or interrupted attempt that undoes `slip` pieces. */
  datatype Kind = Count | Work | Retry(slip: nat)

  function Tally<L>(kind: L -> Kind, ls: seq<L>): (t: (nat, nat, nat)) {
    if ls == [] then (0, 0, 0)
    else
      var (c, w, r) := Tally(kind, ls[..|ls| - 1]);
      match kind(ls[|ls| - 1])
      case Count => (c + 1, w, r)
      case Work => (c, w + 1, r)
      case Retry(slip) => (c, w, r + slip)
  }

  function Counts<L>(kind: L -> Kind, ls: seq<L>): nat { Tally(kind, ls).0 }
  function Works<L>(kind: L -> Kind, ls: seq<L>): nat { Tally(kind, ls).1 }
  function Slips<L>(kind: L -> Kind, ls: seq<L>): nat { Tally(kind, ls).2 }

  /** `before` and `after` are the pieces of work outstanding; a round consists of `round` pieces. */
  predicate Pays(before: nat, k: Kind, after: nat, round: nat) {
    match k
    case Count => after == before + round
    case Work => after + 1 == before
    case Retry(slip) => after == before + slip
  }

  /** Every step pays for itself out of `rank`. */
  ghost predicate Paid<S(!new), L(!new)>(
      step: (S, L, S) -> bool, inv: S -> bool, rank: S -> nat, kind: L -> Kind, round: nat)
  {
    forall s, l, s' :: inv(s) && step(s, l, s') ==> inv(s') && Pays(rank(s), kind(l), rank(s'), round)
  }

  ghost predicate Useful<S(!new), L(!new)>(step: (S, L, S) -> bool, kind: L -> Kind, s: S) {
    exists l, s' :: step(s, l, s') && !kind(l).Retry?
  }

  /** Every state satisfying `inv` offers a useful step. */
  ghost predicate Live<S(!new), L(!new)>(step: (S, L, S) -> bool, inv: S -> bool, kind: L -> Kind) {
    forall s :: inv(s) ==> Useful(step, kind, s)
  }

  /** Work is conserved: what was done and what is outstanding make up `round` pieces per increment,
    plus what was undone. No run can work for ever without the counter moving. */
  lemma {:induction false} Throughput<S(!new), L(!new)>(
      step: (S, L, S) -> bool, inv: S -> bool, rank: S -> nat, kind: L -> Kind, round: nat, ss: seq<S>, ls: seq<L>)
    requires Paid(step, inv, rank, kind, round) && IsPath(step, ss, ls) && inv(ss[0])
    ensures inv(ss[|ls|])
    ensures Works(kind, ls) + rank(ss[|ls|]) == rank(ss[0]) + round * Counts(kind, ls) + Slips(kind, ls)
    decreases |ls|
  {
    if |ls| > 0 {
      var n := |ls| - 1;
      var ls0 := ls[..n];
      Throughput(step, inv, rank, kind, round, ss[..n + 1], ls0);
      assert step(ss[n], ls[n], ss[n + 1]);
      var before, after := rank(ss[n]), rank(ss[n + 1]);
      assert Pays(before, kind(ls[n]), after, round);
      assert round * (Counts(kind, ls0) + 1) == round * Counts(kind, ls0) + round;
    }
  }

  /** `count` moves with the increments and with nothing else. */
  ghost predicate Counted<S(!new), L(!new)>(step: (S, L, S) -> bool, count: S -> nat, kind: L -> Kind) {
    forall s, l, s' :: step(s, l, s') ==> count(s') == count(s) + if kind(l) == Count then 1 else 0
  }

  lemma {:induction false} CountsMove<S(!new), L(!new)>(
      step: (S, L, S) -> bool, count: S -> nat, kind: L -> Kind, ss: seq<S>, ls: seq<L>)
    requires Counted(step, count, kind) && IsPath(step, ss, ls)
    ensures count(ss[|ls|]) == count(ss[0]) + Counts(kind, ls)
    decreases |ls|
  {
    if |ls| > 0 {
      var n := |ls| - 1;
      CountsMove(step, count, kind, ss[..n + 1], ls[..n]);
      assert step(ss[n], ls[n], ss[n + 1]);
    }
  }

  lemma {:induction false} NoSlips<L(!new)>(kind: L -> Kind, ls: seq<L>)
    requires forall l :: kind(l).Retry? ==> kind(l).slip == 0
    ensures Slips(kind, ls) == 0
  {
    if ls != [] {
      NoSlips(kind, ls[..|ls| - 1]);
    }
  }

  /** From `s` some schedule of at most `n` useful steps, and no retries, ends in an increment. */
  ghost predicate CountsWithin<S(!new), L(!new)>(step: (S, L, S) -> bool, kind: L -> Kind, s: S, n: nat) {
    exists ss: seq<S>, ls: seq<L> ::
      && IsPath(step, ss, ls)
      && ss[0] == s
      && 0 < |ls| <= n
      && kind(ls[|ls| - 1]) == Count
      && forall i :: 0 <= i < |ls| - 1 ==> kind(ls[i]) == Work
  }

  lemma Prepend<S(!new), L(!new)>(step: (S, L, S) -> bool, kind: L -> Kind, s: S, l: L, s': S, n: nat)
    requires step(s, l, s') && kind(l) == Work && CountsWithin(step, kind, s', n)
    ensures CountsWithin(step, kind, s, n + 1)
  {
    var ss, ls :| IsPath(step, ss, ls) && ss[0] == s' && 0 < |ls| <= n
                  && kind(ls[|ls| - 1]) == Count && forall i :: 0 <= i < |ls| - 1 ==> kind(ls[i]) == Work;
    var ss', ls' := [s] + ss, [l] + ls;
    forall i | 0 <= i < |ls'| ensures step(ss'[i], ls'[i], ss'[i + 1]) {
      if i > 0 {
        assert step(ss[i - 1], ls[i - 1], ss[i]);
      }
    }
    assert forall i :: 0 < i < |ls'| - 1 ==> ls'[i] == ls[i - 1];
    assert IsPath(step, ss', ls') && ss'[0] == s;
  }

  lemma CountsWithinMore<S(!new), L(!new)>(step: (S, L, S) -> bool, kind: L -> Kind, s: S, n: nat, m: nat)
    requires CountsWithin(step, kind, s, n) && n <= m
    ensures CountsWithin(step, kind, s, m)
  {
  }

  /** In `s` there is an increment, or a useful step that keeps `inv` and lowers `rank`. */
  ghost predicate Advances<S(!new), L(!new)>(
      step: (S, L, S) -> bool, inv: S -> bool, rank: S -> nat, kind: L -> Kind, s: S)
  {
    exists l, s' :: step(s, l, s') && (kind(l) == Count || (kind(l) == Work && inv(s') && rank(s') < rank(s)))
  }

  ghost predicate Advancing<S(!new), L(!new)>(
      step: (S, L, S) -> bool, inv: S -> bool, rank: S -> nat, kind: L -> Kind)
  {
    forall s :: inv(s) ==> Advances(step, inv, rank, kind, s)
  }

  /** Where some schedule always advances, it comes to an increment. */
  lemma {:induction false} AdvancesToCount<S(!new), L(!new)>(
      step: (S, L, S) -> bool, inv: S -> bool, rank: S -> nat, kind: L -> Kind, s: S)
    requires Advancing(step, inv, rank, kind) && inv(s)
    ensures CountsWithin(step, kind, s, rank(s) + 1)
    decreases rank(s)
  {
    assert Advances(step, inv, rank, kind, s);
    var l, s' :| step(s, l, s') && (kind(l) == Count || (kind(l) == Work && inv(s') && rank(s') < rank(s)));
    if kind(l) == Count {
      var ss, ls := [s, s'], [l];
      assert IsPath(step, ss, ls) && ss[0] == s && 0 < |ls| <= rank(s) + 1;
    } else {
      AdvancesToCount(step, inv, rank, kind, s');
      Prepend(step, kind, s, l, s', rank(s') + 1);
      CountsWithinMore(step, kind, s, rank(s') + 2, rank(s) + 1);
    }
  }

  /** A ranked system can always count again, within one step more than its rank. */
  lemma {:induction false} CanCount<S(!new), L(!new)>(
      step: (S, L, S) -> bool, inv: S -> bool, rank: S -> nat, kind: L -> Kind, round: nat, s: S)
    requires Paid(step, inv, rank, kind, round) && Live(step, inv, kind) && inv(s)
    ensures CountsWithin(step, kind, s, rank(s) + 1)
    decreases rank(s)
  {
    assert Useful(step, kind, s);
    var l, s' :| step(s, l, s') && !kind(l).Retry?;
    if kind(l) == Count {
      var ss, ls := [s, s'], [l];
      assert IsPath(step, ss, ls) && ss[0] == s && 0 < |ls| <= rank(s) + 1;
    } else {
      assert Pays(rank(s), kind(l), rank(s'), round);
      CanCount(step, inv, rank, kind, round, s');
      Prepend(step, kind, s, l, s', rank(s') + 1);
      CountsWithinMore(step, kind, s, rank(s') + 2, rank(s) + 1);
    }
  }
}
