/** The registry of communication modes: an array that grows by slabs of five. Each mode registers
  itself with `ADD_COMM_MODE` before `main`, in an order that the linker chooses. */
module Registry {
  import opened Options

  /** A function of the program: the null pointer, one of the defaults, or one of a mode's own. */
  datatype Fn =
    | Null | NoInit | NoPre | NoBegin | PingGeneric | PongGeneric | SendGeneric | RecvGeneric
    | NoCleanup | ShowNoOptions | ParseNoOptions | Own(id: nat)

  datatype Ops = Ops(init: Fn, makePair: Fn, pre: Fn, begin: Fn, ping: Fn, pong: Fn, send: Fn, recv: Fn,
                     show: Fn, parse: Fn, cleanup: Fn)

  const NO_OPS := Ops(Null, Null, Null, Null, Null, Null, Null, Null, Null, Null, Null)

  /** The function supplied, or the default where none is. */
  predicate Supplied(given: Fn, default: Fn, f: Fn) {
    (given == Null ==> f == default) && (given != Null ==> f == given)
  }

  /** Every operation but the pair maker has a default of its own. */
  predicate Completed(given: Ops, ops: Ops) {
    && Supplied(given.init, NoInit, ops.init)
    && ops.makePair == given.makePair
    && Supplied(given.pre, NoPre, ops.pre)
    && Supplied(given.begin, NoBegin, ops.begin)
    && Supplied(given.ping, PingGeneric, ops.ping)
    && Supplied(given.pong, PongGeneric, ops.pong)
    && Supplied(given.send, SendGeneric, ops.send)
    && Supplied(given.recv, RecvGeneric, ops.recv)
    && Supplied(given.show, ShowNoOptions, ops.show)
    && Supplied(given.parse, ParseNoOptions, ops.parse)
    && Supplied(given.cleanup, NoCleanup, ops.cleanup)
  }

  function Default(f: Fn, d: Fn): Fn {
    if f != Null then f else d
  }

  function WithDefaults(o: Ops): (r: Ops)
    ensures Completed(o, r)
  {
    Ops(Default(o.init, NoInit), o.makePair, Default(o.pre, NoPre), Default(o.begin, NoBegin),
        Default(o.ping, PingGeneric), Default(o.pong, PongGeneric), Default(o.send, SendGeneric),
        Default(o.recv, RecvGeneric), Default(o.show, ShowNoOptions), Default(o.parse, ParseNoOptions),
        Default(o.cleanup, NoCleanup))
  }

  /** An entry; texts that are null are None. */
  datatype Info = Info(name: Option<string>, help: Option<string>, ops: Ops, index: int, initialized: bool)

  const ZERO := Info(None, None, NO_OPS, 0, false)

  /** What `ADD_COMM_MODE` passes on. */
  datatype Mode = Mode(name: string, help: Option<string>, ops: Ops)

  const INCREMENT := 5

  function Slabs(count: nat): (cap: nat)
    ensures count <= cap < count + INCREMENT && cap % INCREMENT == 0
  {
    (count + INCREMENT - 1) / INCREMENT * INCREMENT
  }

  /** A slab has five entries. */
  lemma SlabsOfFive()
    ensures Slabs(0) == 0 && Slabs(1) == Slabs(5) == 5 && Slabs(6) == 10
  {
  }

  // ---- what the operations do to the entries ----

  function Added(es: seq<Info>, name: string): seq<Info> {
    es + [Info(Some(name), None, NO_OPS, |es|, false)]
  }

  /** The first entry from `i` on with that name, or none. */
  function Find(es: seq<Info>, name: string, i: nat): (r: Option<nat>)
    ensures r.Some? ==> i <= r.value < |es| && es[r.value].name == Some(name)
    ensures forall j :: i <= j < (if r.Some? then r.value else |es|) ==> es[j].name != Some(name)
    decreases |es| - i
  {
    if i >= |es| then None else if es[i].name == Some(name) then Some(i) else Find(es, name, i + 1)
  }

  function Initialize(e: Info, m: Mode): Info {
    e.(help := if m.help.Some? then m.help else e.help, ops := WithDefaults(m.ops), initialized := true)
  }

  function Initialized(es: seq<Info>, m: Mode): seq<Info> {
    var at := Find(es, m.name, 0);
    if at.Some? then es[at.value := Initialize(es[at.value], m)] else es
  }

  /** What a mode makes of the entry with its name: complete operations, its help if it gives any. */
  predicate InitializedBy(m: Mode, e: Info, e': Info) {
    && e'.initialized && e'.name == e.name && e'.index == e.index
    && Completed(m.ops, e'.ops)
    && (if m.help.Some? then e'.help == m.help else e'.help == e.help)
  }

  /** One entry is initialised, and no other changes. */
  lemma InitializesOne(es: seq<Info>, m: Mode)
    requires Find(es, m.name, 0).Some?
    ensures var (i, es') := (Find(es, m.name, 0).value, Initialized(es, m));
            && |es'| == |es| && InitializedBy(m, es[i], es'[i])
            && forall j :: 0 <= j < |es| && j != i ==> es'[j] == es[j]
  {
  }

  predicate AllInitialized(es: seq<Info>) {
    forall i :: 0 <= i < |es| ==> es[i].initialized
  }

  /** The entries after the modes registered themselves one after the other. */
  function Registered(modes: seq<Mode>): seq<Info> {
    if modes == [] then []
    else
      var m := modes[|modes| - 1];
      Initialized(Added(Registered(modes[..|modes| - 1]), m.name), m)
  }

  // ---- the code ----

  class Modes {
    var info: array?<Info>
    var count: nat

    ghost predicate Valid()
      reads this, info
    {
      && (info == null <==> count == 0)
      && (info != null ==>
          && info.Length == Slabs(count)
          && (forall i :: 0 <= i < count ==> info[i].index == i && info[i].name.Some?)
          && (forall i :: count <= i < info.Length ==> info[i] == ZERO))
    }

    ghost function Entries(): seq<Info>
      reads this, info
      requires Valid()
    {
      if info == null then [] else info[..count]
    }

    constructor ()
      ensures Valid() && Entries() == []
    {
      info, count := null, 0;
    }

    /** `realloc` by a slab, the new slab zeroed. */
    method Grow()
      requires Valid() && count % INCREMENT == 0
      modifies this`info
      ensures fresh(info) && info.Length == count + INCREMENT && info[..count] == old(Entries())
      ensures forall i :: count <= i < info.Length ==> info[i] == ZERO
    {
      ghost var before := Entries();
      var bigger := new Info[count + INCREMENT];
      for i := 0 to count
        invariant info == old(info) && Valid() && Entries() == before && bigger[..i] == before[..i]
      {
        bigger[i] := info[i];
      }
      for i := count to count + INCREMENT
        invariant info == old(info) && bigger[..count] == before
        invariant forall j :: count <= j < i ==> bigger[j] == ZERO
      {
        bigger[i] := ZERO;
      }
      info := bigger;
    }

    /** `comm_mode_add` */
    method Add(name: string)
      requires Valid()
      modifies this, info
      ensures Valid() && (info == old(info) || fresh(info))
      ensures Entries() == Added(old(Entries()), name)
    {
      ghost var before := Entries();
      if count % INCREMENT == 0 {
        Grow();
      }
      assert info[..count] == before;
      info[count] := info[count].(name := Some(name), index := count, initialized := false);
      count := count + 1;
      assert info[..count] == before + [info[count - 1]];
    }

    /** The entry of a mode gets its help, if any, its operations and its mark. */
    method FillIn(i: nat, m: Mode)
      requires Valid() && i < count
      modifies info
      ensures Valid() && Entries() == old(Entries())[i := Initialize(old(Entries())[i], m)]
    {
      ghost var before := Entries();
      if m.help.Some? {
        info[i] := info[i].(help := m.help);
      }
      info[i] := info[i].(ops := WithDefaults(m.ops));
      info[i] := info[i].(initialized := true);
      assert Entries() == before[i := Initialize(before[i], m)];
    }

    /** `comm_mode_do_initialization`; an unknown name is reported. */
    method DoInitialization(m: Mode) returns (known: bool)
      requires Valid()
      modifies info
      ensures Valid() && Entries() == Initialized(old(Entries()), m)
      ensures known <==> Find(old(Entries()), m.name, 0).Some?
      ensures known ==>
        var i := Find(old(Entries()), m.name, 0).value;
        && |Entries()| == |old(Entries())| && InitializedBy(m, old(Entries())[i], Entries()[i])
        && (forall j :: 0 <= j < |Entries()| && j != i ==> Entries()[j] == old(Entries())[j])
      ensures !known ==> Entries() == old(Entries())
    {
      if Find(Entries(), m.name, 0).Some? {
        InitializesOne(Entries(), m);
      }
      for i := 0 to count
        invariant Find(Entries(), m.name, 0) == Find(Entries(), m.name, i)
        invariant Valid() && Entries() == old(Entries())
      {
        if |info[i].name.value| != |m.name| {
          continue;
        }
        if info[i].name.value == m.name {
          FillIn(i, m);
          return true;
        }
      }
      return false;
    }

    /** `comm_mode_verify_all` */
    method VerifyAll() returns (result: bool)
      requires Valid()
      ensures result <==> AllInitialized(Entries())
    {
      result := true;
      for i := 0 to count
        invariant result <==> AllInitialized(Entries()[..i])
      {
        assert Entries()[..i + 1] == Entries()[..i] + [Entries()[i]];
        if !info[i].initialized {
          result := false;
        }
      }
      assert Entries()[..count] == Entries();
    }

    /** `parse_comm_mode`: what it returns, and the index it puts into the configuration. */
    method ParseCommMode(arg: string) returns (ret: int, index: nat)
      requires Valid()
      ensures match Find(Entries(), arg, 0)
        case Some(i) => ret == i && index == i
        case None => ret == -1 && index == 0
    {
      index := 0;
      for i := 0 to count
        invariant index == 0 && Find(Entries(), arg, 0) == Find(Entries(), arg, i)
      {
        if info[i].name == Some(arg) {
          return i, i;
        }
      }
      return -1, 0;
    }

    /** The constructors that `ADD_COMM_MODE` defines, in the order of the linker. */
    method RegisterAll(modes: seq<Mode>)
      requires Valid() && Entries() == []
      modifies this, info
      ensures Valid() && Entries() == Registered(modes)
      ensures count == |modes| && (count > 0 ==> info.Length == Slabs(count))
    {
      for i := 0 to |modes|
        invariant Valid() && Entries() == Registered(modes[..i]) && (info == old(info) || fresh(info))
      {
        assert modes[..i + 1][..i] == modes[..i];
        Add(modes[i].name);
        var _ := DoInitialization(modes[i]);
      }
      assert modes[..|modes|] == modes;
      EntriesOfModes(modes);
    }
  }

  // ---- what the registry holds ----

  /** No earlier mode has the name of the i-th. */
  predicate IsFirst(modes: seq<Mode>, i: nat)
    requires i < |modes|
  {
    forall j :: 0 <= j < i ==> modes[j].name != modes[i].name
  }

  predicate Distinct(modes: seq<Mode>) {
    forall i, j :: 0 <= i < j < |modes| ==> modes[i].name != modes[j].name
  }

  /** The last mode with that name. */
  function Last(modes: seq<Mode>, name: string): (k: nat)
    requires exists j :: 0 <= j < |modes| && modes[j].name == name
    ensures k < |modes| && modes[k].name == name
    ensures forall j :: k < j < |modes| ==> modes[j].name != name
  {
    if modes[|modes| - 1].name == name then |modes| - 1 else Last(modes[..|modes| - 1], name)
  }

  /** The help of the last mode with that name that gives one, or none if none does. */
  ghost predicate HelpOf(modes: seq<Mode>, name: string, help: Option<string>) {
    match help
    case None => forall j :: 0 <= j < |modes| && modes[j].name == name ==> modes[j].help.None?
    case Some(_) => exists k: nat :: LastHelp(modes, name, k) && modes[k].help == help
  }

  predicate LastHelp(modes: seq<Mode>, name: string, k: nat) {
    && k < |modes| && modes[k].name == name && modes[k].help.Some?
    && forall j :: k < j < |modes| && modes[j].name == name ==> modes[j].help.None?
  }

  /** The i-th entry has its place and the name of the i-th mode. It is initialised exactly if it is the first
    of its name, and then with the operations of the last mode of that name and its last help. */
  ghost predicate EntryOf(modes: seq<Mode>, i: nat, e: Info)
    requires i < |modes|
  {
    && e.index == i && e.name == Some(modes[i].name)
    && (e.initialized <==> IsFirst(modes, i))
    && (IsFirst(modes, i) ==>
          && Completed(modes[Last(modes, modes[i].name)].ops, e.ops)
          && HelpOf(modes, modes[i].name, e.help))
    && (!IsFirst(modes, i) ==> e.ops == NO_OPS && e.help == None)
  }

  /** There is one entry for each mode. */
  lemma {:induction false} EntriesOfModes(modes: seq<Mode>)
    ensures |Registered(modes)| == |modes|
    ensures forall i :: 0 <= i < |modes| ==> EntryOf(modes, i, Registered(modes)[i])
  {
    if modes != [] {
      var before := modes[..|modes| - 1];
      EntriesOfModes(before);
      forall i | 0 <= i < |modes| ensures EntryOf(modes, i, Registered(modes)[i]) {
        EntryStep(modes, Registered(before), i);
      }
    }
  }

  /** The entry that a new registration initialises is the first of its name. */
  lemma FoundIsFirst(modes: seq<Mode>, es: seq<Info>, name: string)
    requires |es| == |modes| > 0 && modes[|modes| - 1].name == name
    requires forall j :: 0 <= j < |es| ==> es[j].name == Some(modes[j].name)
    ensures Find(es, name, 0).Some?
    ensures forall i :: 0 <= i < |modes| ==>
      (i == Find(es, name, 0).value <==> modes[i].name == name && IsFirst(modes, i))
  {
    assert es[|es| - 1].name == Some(name);
    var k := Find(es, name, 0).value;
    forall i | 0 <= i < |modes| ensures i == k <==> modes[i].name == name && IsFirst(modes, i) {
      assert es[i].name == Some(modes[i].name) && es[k].name == Some(modes[k].name);
      if i == k {
        forall j | 0 <= j < i ensures modes[j].name != name {
          assert es[j].name == Some(modes[j].name);
        }
      }
    }
  }

  lemma NamesStay(modes: seq<Mode>, es: seq<Info>)
    requires |es| == |modes| - 1 && forall j :: 0 <= j < |es| ==> EntryOf(modes[..|es|], j, es[j])
    ensures forall j :: 0 <= j < |modes| ==> Added(es, modes[|es|].name)[j].name == Some(modes[j].name)
  {
    forall j | 0 <= j < |es| ensures es[j].name == Some(modes[j].name) {
      assert EntryOf(modes[..|es|], j, es[j]);
    }
  }

  /** What the last registration does to the i-th entry. */
  lemma EntryAfter(modes: seq<Mode>, i: nat, e: Info)
    requires i < |modes| - 1 && EntryOf(modes[..|modes| - 1], i, e)
    ensures var m := modes[|modes| - 1];
            EntryOf(modes, i, if modes[i].name == m.name && IsFirst(modes, i) then Initialize(e, m) else e)
  {
    FirstStays(modes, i);
    if IsFirst(modes, i) {
      HelpStays(modes, modes[i].name, e.help);
    }
  }

  /** One more mode. */
  lemma HelpStays(modes: seq<Mode>, name: string, help: Option<string>)
    requires modes != [] && HelpOf(modes[..|modes| - 1], name, help)
    ensures var m := modes[|modes| - 1];
            HelpOf(modes, name, if m.name == name && m.help.Some? then m.help else help)
  {
    var (before, m) := (modes[..|modes| - 1], modes[|modes| - 1]);
    if m.name == name && m.help.Some? {
      assert LastHelp(modes, name, |modes| - 1);
    } else if help.Some? {
      var k: nat :| LastHelp(before, name, k) && before[k].help == help;
      assert LastHelp(modes, name, k) by {
        forall j | k < j < |modes| && modes[j].name == name ensures modes[j].help.None? {
          if j < |before| {
            assert before[j] == modes[j];
          }
        }
      }
    } else {
      forall j | 0 <= j < |modes| && modes[j].name == name ensures modes[j].help.None? {
        if j < |before| {
          assert before[j] == modes[j];
        }
      }
    }
  }

  lemma EntryStep(modes: seq<Mode>, es: seq<Info>, i: nat)
    requires i < |modes| && |es| == |modes| - 1
    requires forall j :: 0 <= j < |es| ==> EntryOf(modes[..|es|], j, es[j])
    ensures
      var m := modes[|es|];
      |Initialized(Added(es, m.name), m)| == |modes| && EntryOf(modes, i, Initialized(Added(es, m.name), m)[i])
  {
    var m := modes[|es|];
    NamesStay(modes, es);
    FoundIsFirst(modes, Added(es, m.name), m.name);
    if i < |es| {
      assert EntryOf(modes[..|es|], i, es[i]);
      EntryAfter(modes, i, es[i]);
    }
  }

  lemma FirstStays(modes: seq<Mode>, i: nat)
    requires i < |modes| - 1
    ensures
      var before := modes[..|modes| - 1];
      && (IsFirst(before, i) <==> IsFirst(modes, i))
      && Last(modes, modes[i].name)
         == if modes[|modes| - 1].name == modes[i].name then |modes| - 1 else Last(before, before[i].name)
  {
    var before := modes[..|modes| - 1];
    assert before[i].name == modes[i].name;
    forall j | 0 <= j < |before| ensures before[j] == modes[j] {}
  }

  /** All modes are initialised exactly if no two of them have the same name. */
  lemma VerifiedMeansDistinct(modes: seq<Mode>)
    ensures AllInitialized(Registered(modes)) <==> Distinct(modes)
  {
    EntriesOfModes(modes);
    assert forall i :: 0 <= i < |modes| ==> EntryOf(modes, i, Registered(modes)[i]);
    if AllInitialized(Registered(modes)) {
      forall i, j | 0 <= i < j < |modes| ensures modes[i].name != modes[j].name {
        assert EntryOf(modes, j, Registered(modes)[j]);
      }
    }
  }

  /** A mode that is found by its name is initialised, with the operations of the last mode of that name;
    it is not found exactly if no mode has that name. */
  lemma FoundIsInitialized(modes: seq<Mode>, arg: string)
    ensures match Find(Registered(modes), arg, 0)
      case Some(i) =>
        && i < |modes| && modes[i].name == arg && IsFirst(modes, i) && Registered(modes)[i].initialized
        && Completed(modes[Last(modes, arg)].ops, Registered(modes)[i].ops)
        && HelpOf(modes, arg, Registered(modes)[i].help)
      case None => forall i :: 0 <= i < |modes| ==> modes[i].name != arg
  {
    EntriesOfModes(modes);
    forall i | 0 <= i < |modes| ensures Registered(modes)[i].name == Some(modes[i].name) {
      assert EntryOf(modes, i, Registered(modes)[i]);
    }
  }
}
