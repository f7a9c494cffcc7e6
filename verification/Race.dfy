/** The race2 loops: two threads increment one 64-bit counter without synchronisation, each increment
  a load followed by a store. */
module Race {
  import opened Options

  datatype Who = Ping | Pong

  /** `done` counts completed increments; `loaded` is the value of an increment under way. */
  datatype Thread = Thread(done: nat, loaded: Option<nat>)

  /** `last` is the thread that stored last. */
  datatype State = State(value: nat, ping: Thread, pong: Thread, last: Option<Who>)

  const WORD_RANGE := 0x1_0000_0000_0000_0000

  /** The next value of a 64-bit counter, or of one that never wraps. */
  function Succ(wraps: bool, x: nat): nat {
    if wraps then (x + 1) % WORD_RANGE else x + 1
  }

  function Get(s: State, who: Who): Thread {
    if who == Ping then s.ping else s.pong
  }

  function Set(s: State, who: Who, t: Thread): State {
    if who == Ping then s.(ping := t) else s.(pong := t)
  }

  function Other(who: Who): Who {
    if who == Ping then Pong else Ping
  }

  const START := State(0, Thread(0, None), Thread(0, None), None)

  /** Thread `who` performs its next memory access. */
  function Act(wraps: bool, s: State, who: Who): State {
    var t := Get(s, who);
    match t.loaded
    case None => Set(s, who, t.(loaded := Some(s.value)))
    case Some(x) => Set(s, who, Thread(t.done + 1, None)).(value := Succ(wraps, x), last := Some(who))
  }

  /** The state after a schedule. */
  function Exec(wraps: bool, s: State, sched: seq<Who>): State {
    if sched == [] then s else Act(wraps, Exec(wraps, s, sched[..|sched| - 1]), sched[|sched| - 1])
  }

  /** The schedule completes `a` increments of ping and `b` of pong, and leaves none under way. */
  predicate Completes(wraps: bool, sched: seq<Who>, a: nat, b: nat) {
    var s := Exec(wraps, START, sched);
    s.ping == Thread(a, None) && s.pong == Thread(b, None)
  }

  /** The fewest counts that `a` and `b` increments can leave. */
  function Least(a: nat, b: nat): nat {
    if a == 0 || b == 0 then a + b else if a == 1 || b == 1 then 1 else 2
  }

  // ---- bounds ----

  predicate LoadInv(s: State, who: Who) {
    var (t, u) := (Get(s, who), Get(s, Other(who)));
    t.loaded.Some? ==>
      && t.loaded.value <= t.done + u.done
      && (t.done > 0 ==> t.loaded.value >= 1)
      && (u.done == 0 ==> t.loaded.value == t.done)
  }

  /** A thread's later increments start from its own earlier ones, so only a first increment can
    throw the counter back below two. */
  predicate Inv(s: State) {
    && LoadInv(s, Ping) && LoadInv(s, Pong)
    && s.value <= s.ping.done + s.pong.done
    && (s.last == None ==> s.ping.done == s.pong.done == 0)
    && (s.last.Some? ==> s.value >= 1 && Get(s, s.last.value).done > 0)
    && (s.last.Some? && Get(s, s.last.value).done >= 2 ==> s.value >= 2)
    && (s.ping.done == 0 || s.pong.done == 0 ==> s.value == s.ping.done + s.pong.done)
  }

  lemma LoadKeeps(s: State, who: Who)
    requires Inv(s) && Get(s, who).loaded.None?
    ensures Inv(Act(false, s, who))
  {
  }

  lemma StoreKeeps(s: State, who: Who)
    requires Inv(s) && Get(s, who).loaded.Some?
    ensures Inv(Act(false, s, who))
  {
    if who == Ping {
      assert LoadInv(Act(false, s, who), Pong);
    } else {
      assert LoadInv(Act(false, s, who), Ping);
    }
  }

  lemma {:induction false} ExecInv(sched: seq<Who>)
    ensures Inv(Exec(false, START, sched))
  {
    if sched != [] {
      var s, who := Exec(false, START, sched[..|sched| - 1]), sched[|sched| - 1];
      ExecInv(sched[..|sched| - 1]);
      if Get(s, who).loaded.None? {
        LoadKeeps(s, who);
      } else {
        StoreKeeps(s, who);
      }
    }
  }

  // ---- schedules that lose a given number of increments ----

  function Repeat(who: Who, n: nat): seq<Who> {
    if n == 0 then [] else Repeat(who, n - 1) + [who, who]
  }

  lemma {:induction false} ExecThen(wraps: bool, s: State, one: seq<Who>, two: seq<Who>)
    ensures Exec(wraps, s, one + two) == Exec(wraps, Exec(wraps, s, one), two)
    decreases |two|
  {
    if two == [] {
      assert one + two == one;
    } else {
      var n := |two| - 1;
      assert (one + two)[..|one + two| - 1] == one + two[..n];
      ExecThen(wraps, s, one, two[..n]);
    }
  }

  lemma ExecOne(wraps: bool, s: State, who: Who)
    ensures Exec(wraps, s, [who]) == Act(wraps, s, who)
  {
    assert Exec(wraps, s, [who][..0]) == s;
  }

  /** A thread that runs alone loses nothing. */
  lemma {:induction false} Alone(s: State, who: Who, n: nat)
    requires Get(s, who).loaded == None
    ensures var s' := Exec(false, s, Repeat(who, n));
            && s'.value == s.value + n
            && Get(s', who) == Thread(Get(s, who).done + n, None)
            && Get(s', Other(who)) == Get(s, Other(who))
  {
    if n > 0 {
      Alone(s, who, n - 1);
      var m := Exec(false, s, Repeat(who, n - 1));
      ExecThen(false, s, Repeat(who, n - 1), [who, who]);
      ExecThen(false, m, [who], [who]);
      ExecOne(false, m, who);
      ExecOne(false, Act(false, m, who), who);
    }
  }

  /** `who` loads, the other thread completes `n` increments, `who` stores: the `n` are lost. */
  function Losing(who: Who, n: nat): seq<Who> {
    [who] + Repeat(Other(who), n) + [who]
  }

  lemma Loses(s: State, who: Who, n: nat)
    requires Get(s, Ping).loaded == None && Get(s, Pong).loaded == None
    ensures var s' := Exec(false, s, Losing(who, n));
            && s'.value == s.value + 1
            && Get(s', who) == Thread(Get(s, who).done + 1, None)
            && Get(s', Other(who)) == Thread(Get(s, Other(who)).done + n, None)
  {
    var s1 := Act(false, s, who);
    ExecOne(false, s, who);
    Alone(s1, Other(who), n);
    ExecThen(false, s, [who], Repeat(Other(who), n));
    var s2 := Exec(false, s1, Repeat(Other(who), n));
    ExecThen(false, s, [who] + Repeat(Other(who), n), [who]);
    ExecOne(false, s2, who);
  }

  /** A schedule in which ping's first increment loses `x` of pong's and pong's last loses `y` of ping's. */
  lemma LosesTwice(a: nat, b: nat, x: nat, y: nat) returns (sched: seq<Who>)
    requires x < b && y < a
    ensures Completes(false, sched, a, b) && Exec(false, START, sched).value == a + b - x - y
  {
    var p1, p2, p3, p4 := Losing(Ping, x), Repeat(Pong, b - 1 - x), Repeat(Ping, a - 1 - y), Losing(Pong, y);
    Loses(START, Ping, x);
    var s1 := Exec(false, START, p1);
    Alone(s1, Pong, b - 1 - x);
    ExecThen(false, START, p1, p2);
    var s2 := Exec(false, s1, p2);
    Alone(s2, Ping, a - 1 - y);
    ExecThen(false, START, p1 + p2, p3);
    var s3 := Exec(false, s2, p3);
    Loses(s3, Pong, y);
    ExecThen(false, START, p1 + p2 + p3, p4);
    sched := p1 + p2 + p3 + p4;
  }

  lemma Attained(a: nat, b: nat, v: nat) returns (sched: seq<Who>)
    requires Least(a, b) <= v <= a + b
    ensures Completes(false, sched, a, b) && Exec(false, START, sched).value == v
  {
    if a == 0 {
      Alone(START, Pong, b);
      sched := Repeat(Pong, b);
    } else if b == 0 {
      Alone(START, Ping, a);
      sched := Repeat(Ping, a);
    } else if v == 1 && a == 1 {
      Loses(START, Ping, b);
      sched := Losing(Ping, b);
    } else if v == 1 {
      Loses(START, Pong, a);
      sched := Losing(Pong, a);
    } else {
      var lost := a + b - v;
      var x := if lost < b then lost else b - 1;
      sched := LosesTwice(a, b, x, lost - x);
    }
  }

  // ---- wrap-around ----

  function WrappedThread(t: Thread): Thread {
    if t.loaded.None? then t else t.(loaded := Some(t.loaded.value % WORD_RANGE))
  }

  /** The same state in a counter of 64 bits. */
  function Wrapped(s: State): State {
    State(s.value % WORD_RANGE, WrappedThread(s.ping), WrappedThread(s.pong), s.last)
  }

  lemma SuccWraps(x: nat)
    ensures Succ(true, x % WORD_RANGE) == Succ(false, x) % WORD_RANGE
  {
  }

  lemma ActWraps(s: State, who: Who)
    ensures Act(true, Wrapped(s), who) == Wrapped(Act(false, s, who))
  {
    var t := Get(s, who);
    assert Get(Wrapped(s), who) == WrappedThread(t);
    if t.loaded.Some? {
      SuccWraps(t.loaded.value);
    }
  }

  lemma {:induction false} ExecWraps(sched: seq<Who>)
    ensures Exec(true, START, sched) == Wrapped(Exec(false, START, sched))
  {
    if sched != [] {
      ExecWraps(sched[..|sched| - 1]);
      ActWraps(Exec(false, START, sched[..|sched| - 1]), sched[|sched| - 1]);
    }
  }

  // ---- main results ----

  /** In every state, also with increments under way: at most as many counts as completed increments,
    at least one after a store, and at least two once both threads have completed two. */
  lemma CountBounds(sched: seq<Who>)
    ensures var s := Exec(false, START, sched);
            && s.value <= s.ping.done + s.pong.done
            && (s.ping.done > 0 || s.pong.done > 0 ==> s.value >= 1)
            && (s.ping.done >= 2 && s.pong.done >= 2 ==> s.value >= 2)
            && (s.ping.done == 0 || s.pong.done == 0 ==> s.value == s.ping.done + s.pong.done)
  {
    ExecInv(sched);
  }

  ghost predicate Possible(wraps: bool, a: nat, b: nat, v: nat) {
    exists sched :: Completes(wraps, sched, a, b) && Exec(wraps, START, sched).value == v
  }

  /** The counts that `a` and `b` increments can leave are exactly those from `Least(a, b)` to `a + b`. */
  lemma PossibleCounts(a: nat, b: nat, v: nat)
    ensures Possible(false, a, b, v) <==> Least(a, b) <= v <= a + b
  {
    if Possible(false, a, b, v) {
      var sched :| Completes(false, sched, a, b) && Exec(false, START, sched).value == v;
      ExecInv(sched);
    }
    if Least(a, b) <= v <= a + b {
      var sched := Attained(a, b, v);
    }
  }

  /** The 64-bit counter leaves exactly the remainders of those counts. */
  lemma PossibleWords(a: nat, b: nat, w: nat)
    ensures Possible(true, a, b, w) <==>
            exists v :: Least(a, b) <= v <= a + b && w == v % 0x1_0000_0000_0000_0000
  {
    if Possible(true, a, b, w) {
      var sched :| Completes(true, sched, a, b) && Exec(true, START, sched).value == w;
      ExecWraps(sched);
      var v := Exec(false, START, sched).value;
      assert Possible(false, a, b, v);
      PossibleCounts(a, b, v);
      assert Least(a, b) <= v <= a + b && w == v % WORD_RANGE;
    }
    if exists v :: Least(a, b) <= v <= a + b && w == v % WORD_RANGE {
      var v :| Least(a, b) <= v <= a + b && w == v % WORD_RANGE;
      var sched := Attained(a, b, v);
      ExecWraps(sched);
      assert Completes(true, sched, a, b);
    }
  }

  /** Two threads that complete two increments or more always leave at least two counts, as long as
    the counter cannot wrap, and only then. */
  lemma AtLeastTwo(a: nat, b: nat)
    requires a >= 2 && b >= 2
    ensures (forall w :: Possible(true, a, b, w) ==> w >= 2) <==> a + b < 0x1_0000_0000_0000_0000
  {
    if a + b < WORD_RANGE {
      forall w | Possible(true, a, b, w) ensures w >= 2 {
        PossibleWords(a, b, w);
      }
    } else {
      var v := WORD_RANGE;
      assert Least(a, b) <= v <= a + b && 0 == v % WORD_RANGE;
      PossibleWords(a, b, 0);
      assert Possible(true, a, b, 0);
    }
  }

  /** A late store can make the counter fall, so its differences need not add up. */
  lemma CountCanFall() returns (sched: seq<Who>, who: Who)
    ensures Exec(false, START, sched + [who]).value < Exec(false, START, sched).value
  {
    sched, who := [Ping] + Repeat(Pong, 2), Ping;
    var s := Act(false, START, Ping);
    ExecOne(false, START, Ping);
    ExecThen(false, START, [Ping], Repeat(Pong, 2));
    Alone(s, Pong, 2);
    ExecThen(false, START, sched, [who]);
    ExecOne(false, Exec(false, START, sched), who);
  }
}
