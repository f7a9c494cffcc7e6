/** `parse_sched_data`: the scheduler statistics of both threads, cut up in place line by line and shown
  side by side. A buffer holds its text, of length `n`, and nothing but NULs behind it. Pointers into a
  buffer are positions; NULL is -1. */
module SchedLines {
  import opened Options

  const NUL := '\0'

  predicate Sep(c: char) {
    c == ':' || c == ' '
  }

  predicate Loaded(s: seq<char>, n: nat) {
    n + 2 <= |s| && (forall i :: 0 <= i < n ==> s[i] != NUL) && (forall i :: n <= i < |s| ==> s[i] == NUL)
  }

  // ---- lines ----

  /** A line without its newline. */
  datatype Span = Span(start: nat, end: nat)

  function Line(s: seq<char>, t: Span): seq<char>
    requires t.start <= t.end <= |s|
  {
    s[t.start..t.end]
  }

  /** A whole, non-empty line of the text. */
  predicate IsLine(s: seq<char>, n: nat, t: Span)
    requires n <= |s|
  {
    && t.start < t.end <= n
    && (forall i :: t.start <= i < t.end ==> s[i] != '\n')
    && (t.end < n ==> s[t.end] == '\n')
  }

  function SkipNewlines(s: seq<char>, n: nat, p: nat): (q: nat)
    requires p <= n <= |s|
    ensures p <= q <= n && (forall i :: p <= i < q ==> s[i] == '\n') && (q < n ==> s[q] != '\n')
    decreases n - p
  {
    if p < n && s[p] == '\n' then SkipNewlines(s, n, p + 1) else p
  }

  function LineEnd(s: seq<char>, n: nat, p: nat): (q: nat)
    requires p <= n <= |s|
    ensures p <= q <= n && (forall i :: p <= i < q ==> s[i] != '\n') && (q < n ==> s[q] == '\n')
    decreases n - p
  {
    if p < n && s[p] != '\n' then LineEnd(s, n, p + 1) else p
  }

  /** The non-empty lines from `p` on. */
  function Tokens(s: seq<char>, n: nat, p: nat): (ts: seq<Span>)
    requires p <= n <= |s|
    ensures forall i :: 0 <= i < |ts| ==> IsLine(s, n, ts[i])
    decreases n - p
  {
    var start := SkipNewlines(s, n, p);
    if start == n then []
    else
      var end := LineEnd(s, n, start);
      [Span(start, end)] + Tokens(s, n, if end < n then end + 1 else n)
  }

  lemma NextToken(s: seq<char>, n: nat, p: nat, start: nat, end: nat)
    requires p <= n <= |s| && start == SkipNewlines(s, n, p) && start < n && end == LineEnd(s, n, start)
    ensures Tokens(s, n, p) == [Span(start, end)] + Tokens(s, n, if end < n then end + 1 else n)
  {
  }

  lemma TokensBehind(s: seq<char>, n: nat, p: nat, t: Span, q: nat)
    requires p <= n <= |s| && q <= n && Tokens(s, n, p) == [t] + Tokens(s, n, q)
    ensures Tokens(s, n, p)[1..] == Tokens(s, n, q)
  {
  }

  function Newlines(s: seq<char>): nat {
    if s == [] then 0 else Newlines(s[..|s| - 1]) + if s[|s| - 1] == '\n' then 1 else 0
  }

  // ---- one line ----

  /** Where the key of a line ends: at its first separator, or at its end. */
  function KeyEnd(s: seq<char>, t: Span): (k: nat)
    requires t.start <= t.end <= |s|
    ensures t.start <= k <= t.end && (forall i :: t.start <= i < k ==> !Sep(s[i])) && (k < t.end ==> Sep(s[k]))
    decreases t.end - t.start
  {
    if t.start < t.end && !Sep(s[t.start]) then KeyEnd(s, Span(t.start + 1, t.end)) else t.start
  }

  function SkipSeps(s: seq<char>, p: nat): (q: nat)
    requires p <= |s|
    ensures p <= q <= |s| && (forall i :: p <= i < q ==> Sep(s[i])) && (q < |s| ==> !Sep(s[q]))
    decreases |s| - p
  {
    if p < |s| && Sep(s[p]) then SkipSeps(s, p + 1) else p
  }

  predicate HasSep(s: seq<char>, t: Span)
    requires t.start <= t.end <= |s|
  {
    KeyEnd(s, t) < t.end
  }

  function Key(s: seq<char>, t: Span): seq<char>
    requires t.start <= t.end <= |s|
  {
    s[t.start..KeyEnd(s, t)]
  }

  /** The first separator is overwritten; the value begins behind the separators that follow it. In a line
    without separator the end of the line is overwritten, and what follows belongs to the next line. */
  function ValueStart(s: seq<char>, t: Span): (v: nat)
    requires t.start <= t.end < |s|
    ensures KeyEnd(s, t) + 1 <= v <= |s|
  {
    SkipSeps(s, KeyEnd(s, t) + 1)
  }

  function Seps(s: seq<char>, t: Span): seq<char>
    requires t.start <= t.end < |s|
  {
    s[KeyEnd(s, t)..ValueStart(s, t)]
  }

  /** The value as C sees it: up to the end of the line, or, taken from the next line, of the text. */
  function Value(s: seq<char>, n: nat, t: Span): seq<char>
    requires t.start <= t.end <= n < |s|
  {
    var end := if HasSep(s, t) then t.end else n;
    if ValueStart(s, t) <= end then s[ValueStart(s, t)..end] else []
  }

  // ---- a pair of lines ----

  /** The two buffers. */
  datatype Texts = Texts(s0: seq<char>, n0: nat, s1: seq<char>, n1: nat) {
    predicate Ok() {
      Loaded(s0, n0) && Loaded(s1, n1)
    }
  }

  datatype Row = Row(key: seq<char>, value1: seq<char>, value2: seq<char>)

  predicate KeysMatch(x: Texts, t0: Span, t1: Span)
    requires x.Ok() && IsLine(x.s0, x.n0, t0) && IsLine(x.s1, x.n1, t1)
  {
    Key(x.s0, t0) != [] && Key(x.s1, t1) != [] && Key(x.s0, t0) == Key(x.s1, t1)
  }

  predicate Accepted(x: Texts, t0: Span, t1: Span)
    requires x.Ok() && IsLine(x.s0, x.n0, t0) && IsLine(x.s1, x.n1, t1)
  {
    KeysMatch(x, t0, t1) && |Seps(x.s0, t0)| > 1 && |Seps(x.s1, t1)| > 1
  }

  function RowOf(x: Texts, t0: Span, t1: Span): Row
    requires x.Ok() && IsLine(x.s0, x.n0, t0) && IsLine(x.s1, x.n1, t1)
  {
    Row(Key(x.s0, t0), Value(x.s0, x.n0, t0), Value(x.s1, x.n1, t1))
  }

  /** A pair is refused, refused after its slot was filled and cleared, or becomes a row. */
  datatype Verdict = Refused | Cleared | Stored(row: Row)

  function Judge(x: Texts, t0: Span, t1: Span): Verdict
    requires x.Ok() && IsLine(x.s0, x.n0, t0) && IsLine(x.s1, x.n1, t1)
  {
    if Accepted(x, t0, t1) then Stored(RowOf(x, t0, t1)) else if KeysMatch(x, t0, t1) then Cleared else Refused
  }

  // ---- all pairs ----

  predicate AreLines(s: seq<char>, n: nat, ts: seq<Span>)
    requires n <= |s|
  {
    forall i :: 0 <= i < |ts| ==> IsLine(s, n, ts[i])
  }

  /** The first `k` lines of both texts, judged in pairs. */
  function Judged(x: Texts, ts0: seq<Span>, ts1: seq<Span>, k: nat): (vs: seq<Verdict>)
    requires x.Ok() && AreLines(x.s0, x.n0, ts0) && AreLines(x.s1, x.n1, ts1) && k <= |ts0| && k <= |ts1|
    ensures |vs| == k
  {
    if k == 0 then [] else Judged(x, ts0, ts1, k - 1) + [Judge(x, ts0[k - 1], ts1[k - 1])]
  }

  lemma {:induction false} JudgedAt(x: Texts, ts0: seq<Span>, ts1: seq<Span>, k: nat, i: nat)
    requires x.Ok() && AreLines(x.s0, x.n0, ts0) && AreLines(x.s1, x.n1, ts1) && i < k <= |ts0| && k <= |ts1|
    ensures Judged(x, ts0, ts1, k)[i] == Judge(x, ts0[i], ts1[i])
  {
    if i < k - 1 {
      JudgedAt(x, ts0, ts1, k - 1, i);
    }
  }

  function Verdicts(x: Texts): seq<Verdict>
    requires x.Ok()
  {
    var ts0, ts1 := Tokens(x.s0, x.n0, 0), Tokens(x.s1, x.n1, 0);
    Judged(x, ts0, ts1, if |ts0| < |ts1| then |ts0| else |ts1|)
  }

  lemma VerdictAt(x: Texts, i: nat)
    requires x.Ok() && i < |Verdicts(x)|
    ensures Verdicts(x)[i] == Judge(x, Tokens(x.s0, x.n0, 0)[i], Tokens(x.s1, x.n1, 0)[i])
  {
    JudgedAt(x, Tokens(x.s0, x.n0, 0), Tokens(x.s1, x.n1, 0), |Verdicts(x)|, i);
  }

  function Slots(x: Texts): nat
    requires x.Ok()
  {
    Newlines(x.s0[..x.n0])
  }

  /** The rows from the i-th pair on with `free` slots left, and whether a slot is missing. */
  function Rows(vs: seq<Verdict>, i: nat, free: nat): (seq<Row>, bool)
    decreases |vs| - i
  {
    if i >= |vs| then ([], false)
    else if free == 0 && !vs[i].Refused? then ([], true)
    else match vs[i]
      case Stored(row) => ([row] + Rows(vs, i + 1, free - 1).0, Rows(vs, i + 1, free - 1).1)
      case _ => Rows(vs, i + 1, free)
  }

  /** The rows that are shown: those with one of the keys. */
  function Shown(rows: seq<Row>, keys: seq<seq<char>>): seq<Row> {
    if rows == [] then []
    else Shown(rows[..|rows| - 1], keys) + if rows[|rows| - 1].key in keys then [rows[|rows| - 1]] else []
  }

  // ---- the slots suffice ----

  lemma {:induction false} NewlinesMonotone(s: seq<char>, p: nat, q: nat)
    requires p <= q <= |s|
    ensures Newlines(s[..p]) <= Newlines(s[..q])
    decreases q
  {
    if p < q {
      assert s[..q][..q - 1] == s[..q - 1];
      NewlinesMonotone(s, p, q - 1);
    }
  }

  /** A line and its newline add one newline, whatever newlines were skipped before it. */
  lemma NewlineOfLine(s: seq<char>, n: nat, p: nat, start: nat, end: nat)
    requires p <= start <= end < n <= |s| && s[end] == '\n'
    ensures Newlines(s[..p]) + 1 <= Newlines(s[..end + 1])
  {
    NewlinesMonotone(s, p, end);
    assert s[..end + 1][..end] == s[..end];
  }

  /** The last line has no newline. */
  predicate Unended(s: seq<char>, n: nat)
    requires n <= |s|
  {
    n > 0 && s[n - 1] != '\n'
  }

  /** There are at most as many non-empty lines as newlines, but for a last line that has none. */
  lemma {:induction false} LinesAndNewlines(s: seq<char>, n: nat, p: nat)
    requires p <= n <= |s|
    ensures Newlines(s[..p]) + |Tokens(s, n, p)|
         <= Newlines(s[..n]) + if Unended(s, n) then 1 else 0
    decreases n - p
  {
    var start := SkipNewlines(s, n, p);
    NewlinesMonotone(s, p, n);
    if start < n {
      var end := LineEnd(s, n, start);
      NextToken(s, n, p, start, end);
      if end < n {
        NewlineOfLine(s, n, p, start, end);
        LinesAndNewlines(s, n, end + 1);
      } else {
        assert Tokens(s, n, n) == [];
      }
    }
  }

  /** How many of the first `k` pairs are stored. */
  function StoredBefore(vs: seq<Verdict>, k: nat): (c: nat)
    requires k <= |vs|
    ensures c <= k
  {
    if k == 0 then 0 else StoredBefore(vs, k - 1) + if vs[k - 1].Stored? then 1 else 0
  }

  /** The first pairs took all slots and the next pair needs one more. */
  predicate OneTooMany(vs: seq<Verdict>, slots: nat) {
    |vs| > slots && StoredBefore(vs, slots) == slots && !vs[slots].Refused?
  }

  lemma {:induction false} SlotMissing(vs: seq<Verdict>, i: nat, slots: nat)
    requires i <= |vs| <= slots + 1 && StoredBefore(vs, i) <= slots
    requires i > slots ==> !OneTooMany(vs, slots)
    ensures Rows(vs, i, slots - StoredBefore(vs, i)).1 <==> OneTooMany(vs, slots)
    decreases |vs| - i
  {
    if i < |vs| && (vs[i].Refused? || StoredBefore(vs, i) < slots) {
      SlotMissing(vs, i + 1, slots);
    }
  }

  /** Every slot is taken by a row. */
  lemma {:induction false} AllStored(vs: seq<Verdict>, k: nat, j: nat)
    requires j < k <= |vs| && StoredBefore(vs, k) == k
    ensures vs[j].Stored?
  {
    if j < k - 1 {
      AllStored(vs, k - 1, j);
    }
  }

  lemma {:induction false} StoredAll(vs: seq<Verdict>, k: nat)
    requires k <= |vs| && forall i :: 0 <= i < k ==> vs[i].Stored?
    ensures StoredBefore(vs, k) == k
  {
    if k > 0 {
      StoredAll(vs, k - 1);
    }
  }

  lemma OneTooManyMeans(vs: seq<Verdict>, slots: nat)
    ensures OneTooMany(vs, slots) <==>
      |vs| > slots && (forall i :: 0 <= i < slots ==> vs[i].Stored?) && !vs[slots].Refused?
  {
    if OneTooMany(vs, slots) {
      forall i | 0 <= i < slots ensures vs[i].Stored? {
        AllStored(vs, slots, i);
      }
    }
    if |vs| > slots && forall i :: 0 <= i < slots ==> vs[i].Stored? {
      StoredAll(vs, slots);
    }
  }

  lemma RunsOut(vs: seq<Verdict>, lines: nat, slots: nat, unended: bool)
    requires |vs| <= lines <= slots + (if unended then 1 else 0)
    ensures !unended ==> !Rows(vs, 0, slots).1
    ensures Rows(vs, 0, slots).1 <==>
      |vs| == lines == slots + 1 && (forall i :: 0 <= i < slots ==> vs[i].Stored?) && !vs[slots].Refused?
  {
    SlotMissing(vs, 0, slots);
    OneTooManyMeans(vs, slots);
  }

  /** The slots counted from the newlines of thread 0 run out exactly when its text does not end in a
    newline, all its other lines became rows, and its last line meets a line with an equal key. */
  lemma SlotsRunOutExactly(x: Texts)
    requires x.Ok()
    ensures
      var (lines, vs) := (|Tokens(x.s0, x.n0, 0)|, Verdicts(x));
      && lines <= Slots(x) + 1
      && (!Unended(x.s0, x.n0) ==> lines <= Slots(x) && !Rows(vs, 0, Slots(x)).1)
      && (Rows(vs, 0, Slots(x)).1 <==>
          && |vs| == lines == Slots(x) + 1
          && (forall i :: 0 <= i < Slots(x) ==> vs[i].Stored?)
          && !vs[Slots(x)].Refused?)
  {
    LinesAndNewlines(x.s0, x.n0, 0);
    assert x.s0[..0] == [];
    VerdictCount(x);
    RunsOut(Verdicts(x), |Tokens(x.s0, x.n0, 0)|, Slots(x), Unended(x.s0, x.n0));
  }

  lemma VerdictCount(x: Texts)
    requires x.Ok()
    ensures |Verdicts(x)| <= |Tokens(x.s0, x.n0, 0)|
  {
  }

  /** With slots for all, the rows are those of the stored pairs, in order. */
  lemma {:induction false} RowsInOrder(vs: seq<Verdict>, i: nat, free: nat, j: nat)
    requires i <= j <= |vs| && !Rows(vs, i, free).1
    ensures 0 <= StoredBefore(vs, j) - StoredBefore(vs, i) <= |Rows(vs, i, free).0|
    ensures j == |vs| ==> StoredBefore(vs, j) - StoredBefore(vs, i) == |Rows(vs, i, free).0|
    ensures j < |vs| && vs[j].Stored? ==>
      var k := StoredBefore(vs, j) - StoredBefore(vs, i);
      k < |Rows(vs, i, free).0| && Rows(vs, i, free).0[k] == vs[j].row
    decreases j - i
  {
    if i < j {
      RowsInOrder(vs, i + 1, if vs[i].Stored? then free - 1 else free, j);
    }
  }

  // ---- what a row says ----

  /** A line of the form "key  separators  value"; colons and spaces separate. */
  predicate Parted(line: seq<char>, key: seq<char>, seps: seq<char>, value: seq<char>) {
    && line == key + seps + value
    && key != [] && ':' !in key && ' ' !in key
    && seps != [] && (forall i :: 0 <= i < |seps| ==> seps[i] == ':' || seps[i] == ' ')
    && (value != [] ==> value[0] != ':' && value[0] != ' ')
  }

  /** Such a line with two separators or more. */
  predicate Reads(line: seq<char>, key: seq<char>, seps: seq<char>, value: seq<char>) {
    Parted(line, key, seps, value) && |seps| > 1
  }

  lemma ThreeParts(s: seq<char>, a: nat, b: nat, c: nat, d: nat)
    requires a <= b <= c <= d <= |s|
    ensures s[a..d] == s[a..b] + s[b..c] + s[c..d]
  {
  }

  lemma KeyHasNoSep(s: seq<char>, t: Span)
    requires t.start <= t.end <= |s|
    ensures ':' !in Key(s, t) && ' ' !in Key(s, t)
  {
    forall i | 0 <= i < |Key(s, t)| ensures !Sep(Key(s, t)[i]) {
      assert Key(s, t)[i] == s[t.start + i];
    }
  }

  /** A line with a separator is cut into its parts, if it has that form; there is only one way to. */
  lemma LineReads(s: seq<char>, n: nat, t: Span)
    requires Loaded(s, n) && IsLine(s, n, t) && HasSep(s, t)
    ensures Line(s, t) == Key(s, t) + Seps(s, t) + Value(s, n, t)
    ensures Key(s, t) != [] <==> Parted(Line(s, t), Key(s, t), Seps(s, t), Value(s, n, t))
  {
    var k, v := KeyEnd(s, t), ValueStart(s, t);
    assert !Sep(s[t.end]) && v <= t.end;
    ThreeParts(s, t.start, k, v, t.end);
    KeyHasNoSep(s, t);
    forall i | 0 <= i < v - k ensures Sep(Seps(s, t)[i]) {
      assert Seps(s, t)[i] == s[k + i];
    }
  }

  /** An accepted line without separator: its value is taken from the line behind it, and shows the rest
    of the text. */
  lemma NoSeparatorRunsOn(s: seq<char>, n: nat, t: Span)
    requires Loaded(s, n) && IsLine(s, n, t) && !HasSep(s, t) && |Seps(s, t)| > 1
    ensures Key(s, t) == Line(s, t)
    ensures Key(s, t) + Seps(s, t) + Value(s, n, t) == s[t.start..n] != Line(s, t)
  {
    var v := ValueStart(s, t);
    assert Sep(s[t.end + 1]);
    assert !Sep(s[n]) && v <= n;
    ThreeParts(s, t.start, t.end, v, n);
  }

  /** Key, separators and value give a line back exactly when the line has a separator; the keys are
    non-empty, equal and hold no separator. */
  lemma RowRebuilds(x: Texts, t0: Span, t1: Span)
    requires x.Ok() && IsLine(x.s0, x.n0, t0) && IsLine(x.s1, x.n1, t1) && Accepted(x, t0, t1)
    ensures
      var row := RowOf(x, t0, t1);
      && row.key != [] && ':' !in row.key && ' ' !in row.key
      && (row.key + Seps(x.s0, t0) + row.value1 == Line(x.s0, t0) <==> ':' in Line(x.s0, t0) || ' ' in Line(x.s0, t0))
      && (row.key + Seps(x.s1, t1) + row.value2 == Line(x.s1, t1) <==> ':' in Line(x.s1, t1) || ' ' in Line(x.s1, t1))
  {
    KeyHasNoSep(x.s0, t0);
    LineRebuilds(x.s0, x.n0, t0);
    LineRebuilds(x.s1, x.n1, t1);
  }

  lemma LineRebuilds(s: seq<char>, n: nat, t: Span)
    requires Loaded(s, n) && IsLine(s, n, t) && |Seps(s, t)| > 1
    ensures Key(s, t) + Seps(s, t) + Value(s, n, t) == Line(s, t) <==> ':' in Line(s, t) || ' ' in Line(s, t)
  {
    if HasSep(s, t) {
      LineReads(s, n, t);
      assert Line(s, t)[KeyEnd(s, t) - t.start] == s[KeyEnd(s, t)];
    } else {
      NoSeparatorRunsOn(s, n, t);
      KeyHasNoSep(s, t);
    }
  }

  /** Both lines read "key separators value" with the key and the values of the row. */
  predicate ReadsRow(x: Texts, t0: Span, t1: Span, r: Row, seps0: seq<char>, seps1: seq<char>)
    requires x.Ok() && IsLine(x.s0, x.n0, t0) && IsLine(x.s1, x.n1, t1)
  {
    Reads(Line(x.s0, t0), r.key, seps0, r.value1) && Reads(Line(x.s1, t1), r.key, seps1, r.value2)
  }

  /** Two lines with separators are accepted exactly when both read "key separators value" with one key,
    and the row then holds that key and the two values. */
  lemma AcceptedExactly(x: Texts, t0: Span, t1: Span)
    requires x.Ok() && IsLine(x.s0, x.n0, t0) && IsLine(x.s1, x.n1, t1) && HasSep(x.s0, t0) && HasSep(x.s1, t1)
    ensures Accepted(x, t0, t1) <==> exists r, seps0, seps1 :: ReadsRow(x, t0, t1, r, seps0, seps1)
    ensures forall r, seps0, seps1 :: ReadsRow(x, t0, t1, r, seps0, seps1) ==> r == RowOf(x, t0, t1)
  {
    LineReads(x.s0, x.n0, t0);
    LineReads(x.s1, x.n1, t1);
    if Accepted(x, t0, t1) {
      assert ReadsRow(x, t0, t1, RowOf(x, t0, t1), Seps(x.s0, t0), Seps(x.s1, t1));
    }
    forall r, seps0, seps1 | ReadsRow(x, t0, t1, r, seps0, seps1)
      ensures Accepted(x, t0, t1) && r == RowOf(x, t0, t1)
    {
      OnlyReading(x.s0, x.n0, t0, r.key, seps0, r.value1);
      OnlyReading(x.s1, x.n1, t1, r.key, seps1, r.value2);
    }
  }

  lemma ReadsAt(line: seq<char>, key: seq<char>, seps: seq<char>, value: seq<char>, i: nat)
    requires Parted(line, key, seps, value) && i < |line|
    ensures i < |key| ==> !Sep(line[i])
    ensures |key| <= i < |key| + |seps| ==> Sep(line[i])
    ensures i == |key| + |seps| ==> !Sep(line[i])
  {
    if i < |key| {
      assert line[i] == key[i];
    } else if i < |key| + |seps| {
      assert line[i] == seps[i - |key|];
    } else {
      assert line[i] == value[i - |key| - |seps|];
    }
  }

  /** There is only one way to read a line. */
  lemma OnlyReading(s: seq<char>, n: nat, t: Span, key: seq<char>, seps: seq<char>, value: seq<char>)
    requires Loaded(s, n) && IsLine(s, n, t) && Parted(Line(s, t), key, seps, value)
    ensures HasSep(s, t) && Key(s, t) == key && Seps(s, t) == seps && Value(s, n, t) == value
  {
    var b := t.start;
    var k, v := b + |key|, b + |key| + |seps|;
    forall i | b <= i < t.end
      ensures (i < k ==> !Sep(s[i])) && (k <= i < v ==> Sep(s[i])) && (i == v ==> !Sep(s[i]))
    {
      assert s[i] == Line(s, t)[i - b];
      ReadsAt(Line(s, t), key, seps, value, i - b);
    }
    assert Sep(s[k]) && KeyEnd(s, t) == k;
    assert !Sep(s[t.end]) && !Sep(s[v]);
    assert ValueStart(s, t) == v;
    Slices(s, t, k, v, key, seps, value);
  }

  lemma Slices(s: seq<char>, t: Span, k: nat, v: nat, key: seq<char>, seps: seq<char>, value: seq<char>)
    requires t.start <= k <= v <= t.end <= |s| && k == t.start + |key| && v == k + |seps|
    requires Line(s, t) == key + seps + value
    ensures s[t.start..k] == key && s[k..v] == seps && s[v..t.end] == value
  {
    assert s[t.start..k] == Line(s, t)[..|key|] == key;
    assert s[k..v] == Line(s, t)[|key|..|key| + |seps|] == seps;
    assert s[v..t.end] == Line(s, t)[|key| + |seps|..] == value;
  }

  // ---- inputs on which it goes wrong ----

  const UNENDED: seq<char> := ['a', ':', ':', 'b', NUL, NUL]

  /** Two texts of the one line "a::b" without a newline: there is no slot for the row. */
  lemma NoSlotForLastLine()
    ensures var x := Texts(UNENDED, 4, UNENDED, 4);
            x.Ok() && Slots(x) == 0 && Rows(Verdicts(x), 0, Slots(x)).1
  {
    var x, t := Texts(UNENDED, 4, UNENDED, 4), Span(0, 4);
    FirstSep(UNENDED, t, 1);
    FirstValue(UNENDED, t, 3);
    OneLine(UNENDED, 4);
    assert Key(UNENDED, t) == ['a'];
    assert Judge(x, t, t).Stored?;
    NoNewline(UNENDED[..4]);
    VerdictAt(x, 0);
  }

  const UNSEPARATED: seq<char> := ['a', '\n', ':', ':', 'b', NUL, NUL]

  /** Two texts of the lines "a" and "::b": the first line is accepted, with the value of the second. */
  lemma ValueOfNextLine()
    ensures var x := Texts(UNSEPARATED, 5, UNSEPARATED, 5);
            x.Ok() && Verdicts(x) != [] && Verdicts(x)[0] == Stored(Row(['a'], ['b'], ['b']))
  {
    var x := Texts(UNSEPARATED, 5, UNSEPARATED, 5);
    var ts := Tokens(UNSEPARATED, 5, 0);
    NextToken(UNSEPARATED, 5, 0, 0, 1);
    assert ts != [] && ts[0] == Span(0, 1);
    TakenFromNext(x, Span(0, 1));
    VerdictAt(x, 0);
  }

  lemma TakenFromNext(x: Texts, t: Span)
    requires x == Texts(UNSEPARATED, 5, UNSEPARATED, 5) && t == Span(0, 1)
    ensures x.Ok() && IsLine(UNSEPARATED, 5, t) && Judge(x, t, t) == Stored(Row(['a'], ['b'], ['b']))
  {
    FirstSep(UNSEPARATED, t, 1);
    FirstValue(UNSEPARATED, t, 4);
    assert Key(UNSEPARATED, t) == ['a'] && UNSEPARATED[4..5] == ['b'];
  }

  lemma FirstSep(s: seq<char>, t: Span, k: nat)
    requires t.start <= k <= t.end <= |s| && (k < t.end ==> Sep(s[k])) && forall i :: t.start <= i < k ==> !Sep(s[i])
    ensures KeyEnd(s, t) == k
  {
  }

  lemma FirstValue(s: seq<char>, t: Span, v: nat)
    requires t.start <= t.end < |s| && KeyEnd(s, t) < v < |s| && !Sep(s[v])
    requires forall i :: KeyEnd(s, t) < i < v ==> Sep(s[i])
    ensures ValueStart(s, t) == v
  {
  }

  lemma OneLine(s: seq<char>, n: nat)
    requires 0 < n <= |s| && forall i :: 0 <= i < n ==> s[i] != '\n'
    ensures Tokens(s, n, 0) == [Span(0, n)]
  {
    NextToken(s, n, 0, 0, n);
    assert Tokens(s, n, n) == [];
  }

  lemma {:induction false} NoNewline(s: seq<char>)
    requires '\n' !in s
    ensures Newlines(s) == 0
  {
    if s != [] {
      NoNewline(s[..|s| - 1]);
    }
  }

  // ---- the code ----

  /** `count_sched_lines` */
  method CountSchedLines(buf: array<char>, ghost n: nat) returns (count: nat)
    requires Loaded(buf[..], n)
    ensures count == Newlines(buf[..n])
  {
    count := 0;
    var index := 0;
    while buf[index] != NUL
      invariant index <= n && count == Newlines(buf[..index])
      decreases n - index
    {
      assert buf[..index + 1][..index] == buf[..index];
      if buf[index] == '\n' {
        count := count + 1;
      }
      index := index + 1;
    }
    assert index == n;
  }

  /** Nothing was written into the buffer but NULs. */
  predicate OnlyNuls(b: seq<char>, s: seq<char>) {
    |b| == |s| && forall i :: 0 <= i < |s| ==> b[i] == s[i] || b[i] == NUL
  }

  /** From `p` on, and except for NULs everywhere, the buffer still holds its text. */
  predicate Fresh(b: seq<char>, s: seq<char>, p: nat) {
    OnlyNuls(b, s) && forall i :: p <= i < |s| ==> b[i] == s[i]
  }

  /** The buffer while the line `t` is worked on: strtok ended it, and the key may have been ended too. */
  predicate Cut(b: seq<char>, s: seq<char>, t: Span, keyEnded: bool)
    requires t.start <= t.end < |s| == |b|
  {
    && (forall i :: t.start <= i < t.end && (keyEnded ==> i != KeyEnd(s, t)) ==> b[i] == s[i])
    && b[t.end] == NUL && (keyEnded ==> b[KeyEnd(s, t)] == NUL)
  }

  /** Where strtok goes on behind a line. */
  function Behind(n: nat, t: Span): nat {
    if t.end < n then t.end + 1 else n
  }

  /** Between two calls of strtok: the token and the lines behind it are the lines `rest`. */
  predicate At(b: seq<char>, s: seq<char>, n: nat, token: int, save: nat, rest: seq<Span>)
    requires n < |s| && AreLines(s, n, rest)
  {
    && save <= n && Fresh(b, s, save)
    && if rest == [] then token == -1 && save == n
       else
         && token == rest[0].start && save == Behind(n, rest[0])
         && rest[1..] == Tokens(s, n, save) && Cut(b, s, rest[0], false)
  }

  // What is written: `Nul` at the end of a line, and at the end of both keys if neither is empty.

  function Nul(b: seq<char>, p: nat): (r: seq<char>)
    ensures |r| == |b|
  {
    if p < |b| then b[p := NUL] else b
  }

  function LineCut(b: seq<char>, ts: seq<Span>): (r: seq<char>)
    ensures |r| == |b|
  {
    if ts == [] then b else Nul(b, ts[0].end)
  }

  function KeyCut(b: seq<char>, both: bool, k: nat): (r: seq<char>)
    ensures |r| == |b|
  {
    if both then Nul(b, k) else b
  }

  predicate BothKeys(x: Texts, t0: Span, t1: Span)
    requires x.Ok() && IsLine(x.s0, x.n0, t0) && IsLine(x.s1, x.n1, t1)
  {
    Key(x.s0, t0) != [] && Key(x.s1, t1) != []
  }

  method SkipDelims(buf: array<char>, save: nat, ghost s: seq<char>, ghost n: nat) returns (p: nat)
    requires Loaded(s, n) && save <= n && Fresh(buf[..], s, save)
    ensures p == SkipNewlines(s, n, save)
  {
    p := save;
    while buf[p] == '\n'
      invariant save <= p <= n && SkipNewlines(s, n, p) == SkipNewlines(s, n, save)
      decreases n - p
    {
      p := p + 1;
    }
  }

  method FindDelim(buf: array<char>, token: nat, ghost s: seq<char>, ghost n: nat) returns (p: nat)
    requires Loaded(s, n) && token <= n && Fresh(buf[..], s, token)
    ensures p == LineEnd(s, n, token)
  {
    p := token;
    while buf[p] != '\n' && buf[p] != NUL
      invariant token <= p <= n && LineEnd(s, n, p) == LineEnd(s, n, token)
      decreases n - p
    {
      p := p + 1;
    }
  }

  lemma EndsOneLine(b: seq<char>, s: seq<char>, n: nat, t: Span)
    requires Loaded(s, n) && IsLine(s, n, t) && Fresh(b, s, t.start)
    ensures Fresh(Nul(b, t.end), s, Behind(n, t)) && Cut(Nul(b, t.end), s, t, false)
  {
  }

  lemma NoLineLeft(s: seq<char>, n: nat, from: nat)
    requires from <= n <= |s| && SkipNewlines(s, n, from) == n
    ensures Tokens(s, n, from) == []
  {
  }

  lemma TakesOne(b: seq<char>, s: seq<char>, n: nat, from: nat, t: Span)
    requires Loaded(s, n) && from <= t.start && IsLine(s, n, t) && Fresh(b, s, from)
    requires Tokens(s, n, from) == [t] + Tokens(s, n, Behind(n, t))
    ensures At(Nul(b, t.end), s, n, t.start, Behind(n, t), Tokens(s, n, from))
  {
    EndsOneLine(b, s, n, t);
    TokensBehind(s, n, from, t, Behind(n, t));
  }

  /** A call of strtok on what is left of a text. */
  lemma TakesLine(b: seq<char>, s: seq<char>, n: nat, from: nat)
    requires Loaded(s, n) && from <= n && Fresh(b, s, from)
    ensures
      var ts := Tokens(s, n, from);
      At(LineCut(b, ts), s, n, if ts == [] then -1 else ts[0].start, if ts == [] then n else Behind(n, ts[0]), ts)
  {
    var start := SkipNewlines(s, n, from);
    if start < n {
      var t := Span(start, LineEnd(s, n, start));
      NextToken(s, n, from, start, t.end);
      TakesOne(b, s, n, from, t);
      assert Tokens(s, n, from)[0] == t;
    } else {
      NoLineLeft(s, n, from);
    }
  }

  /** `strtok_r(NULL, "\n", &save)`: the next line, NUL written behind it. */
  method StrTok(buf: array<char>, save: nat, ghost s: seq<char>, ghost n: nat) returns (token: int, save': nat)
    requires Loaded(s, n) && save <= n && Fresh(buf[..], s, save)
    modifies buf
    ensures At(buf[..], s, n, token, save', Tokens(s, n, save))
    ensures buf[..] == LineCut(old(buf[..]), Tokens(s, n, save))
  {
    TakesLine(buf[..], s, n, save);
    var p := SkipDelims(buf, save, s, n);
    if buf[p] == NUL {
      return -1, p;
    }
    token := p;
    p := FindDelim(buf, p, s, n);
    NextToken(s, n, save, token, p);
    save' := p;
    if buf[p] == '\n' {
      buf[p] := NUL;
      save' := p + 1;
    }
    assert buf[..] == Nul(old(buf[..]), p);
  }

  /** `strcspn(buf + p, ": ")`, as the position reached. */
  method StrCSpn(buf: array<char>, p: nat, ghost end: nat) returns (q: nat)
    requires p <= end < buf.Length && buf[end] == NUL
    ensures p <= q <= end && (buf[q] == NUL || Sep(buf[q]))
    ensures forall i :: p <= i < q ==> buf[i] != NUL && !Sep(buf[i])
  {
    q := p;
    while buf[q] != NUL && !Sep(buf[q])
      invariant p <= q <= end
      invariant forall i :: p <= i < q ==> buf[i] != NUL && !Sep(buf[i])
      decreases end - q
    {
      q := q + 1;
    }
  }

  /** `strspn(buf + p, ": ")`, as the position reached. */
  method StrSpn(buf: array<char>, p: nat, ghost end: nat) returns (q: nat)
    requires p <= end < buf.Length && buf[end] == NUL
    ensures p <= q <= end && !Sep(buf[q])
    ensures forall i :: p <= i < q ==> Sep(buf[i])
  {
    q := p;
    while Sep(buf[q])
      invariant p <= q <= end
      invariant forall i :: p <= i < q ==> Sep(buf[i])
      decreases end - q
    {
      q := q + 1;
    }
  }

  /** The C string at `p`. */
  method StringAt(buf: array<char>, p: nat, ghost end: nat) returns (r: seq<char>)
    requires p <= end < buf.Length && buf[end] == NUL && forall i :: p <= i < end ==> buf[i] != NUL
    ensures r == buf[p..end]
  {
    r := [];
    var q := p;
    while buf[q] != NUL
      invariant p <= q <= end && r == buf[p..q]
      decreases end - q
    {
      r := r + [buf[q]];
      q := q + 1;
    }
  }

  /** A row as it is stored: positions in the first and the second buffer. */
  datatype Slot = Slot(key: int, value1: int, value2: int)

  const NULLSLOT := Slot(-1, -1, -1)

  method FindKeyEnd(buf: array<char>, p: nat, ghost s: seq<char>, ghost n: nat, ghost t: Span) returns (k: nat)
    requires Loaded(s, n) && IsLine(s, n, t) && |s| == buf.Length && Cut(buf[..], s, t, false) && p == t.start
    ensures k == KeyEnd(s, t)
  {
    k := StrCSpn(buf, p, t.end);
  }

  method ReadKey(buf: array<char>, p: nat, ghost s: seq<char>, ghost n: nat, ghost t: Span) returns (key: seq<char>)
    requires Loaded(s, n) && IsLine(s, n, t) && |s| == buf.Length && Cut(buf[..], s, t, true) && p == t.start
    ensures key == Key(s, t)
  {
    key := StringAt(buf, p, KeyEnd(s, t));
    assert key == s[p..KeyEnd(s, t)];
  }

  /** Where the value of a line begins. */
  method FindValue(buf: array<char>, k: nat, ghost s: seq<char>, ghost n: nat, ghost t: Span) returns (v: nat)
    requires Loaded(s, n) && IsLine(s, n, t) && Fresh(buf[..], s, Behind(n, t)) && Cut(buf[..], s, t, true)
    requires k == KeyEnd(s, t)
    ensures v == ValueStart(s, t)
  {
    v := StrSpn(buf, k + 1, if HasSep(s, t) then t.end else n + 1);
    assert !Sep(s[t.end]);
  }

  /** Ends the key of a line; the text behind the line stays. */
  method EndKey(buf: array<char>, k: nat, ghost s: seq<char>, ghost n: nat, ghost t: Span)
    requires Loaded(s, n) && IsLine(s, n, t) && Fresh(buf[..], s, Behind(n, t)) && Cut(buf[..], s, t, false)
    requires k == KeyEnd(s, t)
    modifies buf
    ensures Fresh(buf[..], s, Behind(n, t)) && Cut(buf[..], s, t, true)
    ensures buf[..] == Nul(old(buf[..]), k)
  {
    buf[k] := NUL;
  }

  /** The first half of `split_sched_lines`: ends the keys, unless one is empty, and compares them. */
  method CompareKeys(buf0: array<char>, p0: nat, buf1: array<char>, p1: nat,
                     ghost x: Texts, ghost t0: Span, ghost t1: Span)
    returns (equal: bool, k0: nat, k1: nat)
    requires x.Ok() && IsLine(x.s0, x.n0, t0) && IsLine(x.s1, x.n1, t1)
    requires Fresh(buf0[..], x.s0, Behind(x.n0, t0)) && Cut(buf0[..], x.s0, t0, false)
    requires Fresh(buf1[..], x.s1, Behind(x.n1, t1)) && Cut(buf1[..], x.s1, t1, false)
    requires p0 == t0.start && p1 == t1.start && buf0 != buf1
    modifies buf0, buf1
    ensures equal <==> KeysMatch(x, t0, t1)
    ensures k0 == KeyEnd(x.s0, t0) && k1 == KeyEnd(x.s1, t1)
    ensures Fresh(buf0[..], x.s0, Behind(x.n0, t0)) && Fresh(buf1[..], x.s1, Behind(x.n1, t1))
    ensures equal ==> Cut(buf0[..], x.s0, t0, true) && Cut(buf1[..], x.s1, t1, true)
    ensures buf0[..] == KeyCut(old(buf0[..]), BothKeys(x, t0, t1), KeyEnd(x.s0, t0))
    ensures buf1[..] == KeyCut(old(buf1[..]), BothKeys(x, t0, t1), KeyEnd(x.s1, t1))
  {
    k0 := FindKeyEnd(buf0, p0, x.s0, x.n0, t0);
    k1 := FindKeyEnd(buf1, p1, x.s1, x.n1, t1);
    if k0 - p0 <= 0 || k1 - p1 <= 0 {
      return false, k0, k1;
    }
    EndKey(buf0, k0, x.s0, x.n0, t0);
    EndKey(buf1, k1, x.s1, x.n1, t1);
    var key0 := ReadKey(buf0, p0, x.s0, x.n0, t0);
    var key1 := ReadKey(buf1, p1, x.s1, x.n1, t1);
    equal := key0 == key1;
  }

  /** `split_sched_lines`: fills the slot `at`; `missing` says that there is no such slot. */
  method SplitSchedLines(slots: array<Slot>, at: nat, buf0: array<char>, p0: nat, buf1: array<char>, p1: nat,
                         ghost x: Texts, ghost t0: Span, ghost t1: Span)
    returns (ret: bool, missing: bool)
    requires x.Ok() && IsLine(x.s0, x.n0, t0) && IsLine(x.s1, x.n1, t1)
    requires Fresh(buf0[..], x.s0, Behind(x.n0, t0)) && Cut(buf0[..], x.s0, t0, false)
    requires Fresh(buf1[..], x.s1, Behind(x.n1, t1)) && Cut(buf1[..], x.s1, t1, false)
    requires p0 == t0.start && p1 == t1.start && buf0 != buf1
    modifies slots, buf0, buf1
    ensures missing <==> at >= slots.Length && !Judge(x, t0, t1).Refused?
    ensures ret <==> Judge(x, t0, t1).Stored? && !missing
    ensures ret ==> slots[at] == Slot(p0, ValueStart(x.s0, t0), ValueStart(x.s1, t1))
    ensures !ret && !missing && !Judge(x, t0, t1).Refused? ==> slots[at] == NULLSLOT
    ensures forall j :: 0 <= j < slots.Length && (j != at || Judge(x, t0, t1).Refused?) ==> slots[j] == old(slots[j])
    ensures Fresh(buf0[..], x.s0, Behind(x.n0, t0)) && Fresh(buf1[..], x.s1, Behind(x.n1, t1))
    ensures ret ==> Cut(buf0[..], x.s0, t0, true) && Cut(buf1[..], x.s1, t1, true)
    ensures buf0[..] == KeyCut(old(buf0[..]), BothKeys(x, t0, t1), KeyEnd(x.s0, t0))
    ensures buf1[..] == KeyCut(old(buf1[..]), BothKeys(x, t0, t1), KeyEnd(x.s1, t1))
  {
    ret, missing := false, false;
    var equal, k0, k1 := CompareKeys(buf0, p0, buf1, p1, x, t0, t1);
    if !equal {
      return;
    }
    if at >= slots.Length {
      missing := true;
      return;
    }
    slots[at] := slots[at].(key := p0);
    var v0 := FindValue(buf0, k0, x.s0, x.n0, t0);
    var v1 := FindValue(buf1, k1, x.s1, x.n1, t1);
    if v0 - (k0 + 1) == 0 || v1 - (k1 + 1) == 0 {
      slots[at] := NULLSLOT;
      return;
    }
    slots[at] := slots[at].(value1 := v0, value2 := v1);
    ret := true;
  }

  /** `interesting_sched_stat` */
  method InterestingSchedStat(key: seq<char>, keys: seq<seq<char>>) returns (found: bool)
    ensures found <==> key in keys
  {
    for i := 0 to |keys|
      invariant key !in keys[..i]
    {
      if keys[i] == key {
        return true;
      }
    }
    return false;
  }

  /** `i` pairs are done: they made the `rows`, filled `used` slots, and `shown` is shown. */
  ghost predicate Filled(vs: seq<Verdict>, slots: nat, keys: seq<seq<char>>, i: nat, rows: seq<Row>, used: nat,
                         shown: seq<Row>) {
    && used <= i <= |vs| && used <= slots && used == |rows| && shown == Shown(rows, keys)
    && Rows(vs, 0, slots).0 == rows + Rows(vs, i, slots - used).0
    && Rows(vs, 0, slots).1 == Rows(vs, i, slots - used).1
  }

  lemma FilledStart(vs: seq<Verdict>, slots: nat, keys: seq<seq<char>>)
    ensures Filled(vs, slots, keys, 0, [], 0, [])
  {
    assert Rows(vs, 0, slots).0 == [] + Rows(vs, 0, slots).0;
  }

  lemma ShownMore(rows: seq<Row>, row: Row, keys: seq<seq<char>>)
    ensures Shown(rows + [row], keys) == if row.key in keys then Shown(rows, keys) + [row] else Shown(rows, keys)
  {
    assert (rows + [row])[..|rows|] == rows;
  }

  lemma RowsStored(vs: seq<Verdict>, i: nat, free: nat, row: Row)
    requires i < |vs| && vs[i] == Stored(row) && free > 0
    ensures Rows(vs, i, free).0 == [row] + Rows(vs, i + 1, free - 1).0
    ensures Rows(vs, i, free).1 == Rows(vs, i + 1, free - 1).1
  {
  }

  lemma RowsAssociate(rows: seq<Row>, row: Row, more: seq<Row>)
    ensures rows + ([row] + more) == (rows + [row]) + more
  {
  }

  lemma FilledStored(vs: seq<Verdict>, slots: nat, keys: seq<seq<char>>, i: nat, rows: seq<Row>, used: nat,
                     shown: seq<Row>, row: Row)
    requires Filled(vs, slots, keys, i, rows, used, shown) && i < |vs| && vs[i] == Stored(row) && used < slots
    ensures Filled(vs, slots, keys, i + 1, rows + [row], used + 1, if row.key in keys then shown + [row] else shown)
  {
    RowsStored(vs, i, slots - used, row);
    ShownMore(rows, row, keys);
    RowsAssociate(rows, row, Rows(vs, i + 1, slots - used - 1).0);
  }

  lemma FilledSkipped(vs: seq<Verdict>, slots: nat, keys: seq<seq<char>>, i: nat, rows: seq<Row>, used: nat,
                      shown: seq<Row>)
    requires Filled(vs, slots, keys, i, rows, used, shown) && i < |vs|
    requires vs[i].Refused? || (vs[i].Cleared? && used < slots)
    ensures Filled(vs, slots, keys, i + 1, rows, used, shown)
  {
    assert Rows(vs, i, slots - used) == Rows(vs, i + 1, slots - used);
  }

  lemma FilledEnd(vs: seq<Verdict>, slots: nat, keys: seq<seq<char>>, i: nat, rows: seq<Row>, used: nat,
                  shown: seq<Row>)
    requires Filled(vs, slots, keys, i, rows, used, shown)
    requires i == |vs| || (used == slots && !vs[i].Refused?)
    ensures shown == Shown(Rows(vs, 0, slots).0, keys) && used == |Rows(vs, 0, slots).0|
    ensures Rows(vs, 0, slots).1 <==> i < |vs|
  {
    assert rows + [] == rows;
  }

  /** One pair of lines: split, and read back if it was accepted. */
  method ShowPair(slots: array<Slot>, at: nat, buf0: array<char>, p0: nat, save0: nat, buf1: array<char>, p1: nat,
                  save1: nat, ghost x: Texts, ghost rest0: seq<Span>, ghost rest1: seq<Span>, ghost v: Verdict)
    returns (row: Option<Row>, missing: bool)
    requires x.Ok() && buf0 != buf1 && rest0 != [] && rest1 != []
    requires AreLines(x.s0, x.n0, rest0) && AreLines(x.s1, x.n1, rest1)
    requires At(buf0[..], x.s0, x.n0, p0, save0, rest0) && At(buf1[..], x.s1, x.n1, p1, save1, rest1)
    requires v == Judge(x, rest0[0], rest1[0])
    modifies slots, buf0, buf1
    ensures missing <==> at >= slots.Length && !v.Refused?
    ensures !missing ==> row == if v.Stored? then Some(v.row) else None
    ensures save0 <= x.n0 && Fresh(buf0[..], x.s0, save0) && save1 <= x.n1 && Fresh(buf1[..], x.s1, save1)
    ensures rest0[1..] == Tokens(x.s0, x.n0, save0) && rest1[1..] == Tokens(x.s1, x.n1, save1)
    ensures buf0[..] == KeyCut(old(buf0[..]), BothKeys(x, rest0[0], rest1[0]), KeyEnd(x.s0, rest0[0]))
    ensures buf1[..] == KeyCut(old(buf1[..]), BothKeys(x, rest0[0], rest1[0]), KeyEnd(x.s1, rest1[0]))
  {
    var ret;
    row := None;
    ret, missing := SplitSchedLines(slots, at, buf0, p0, buf1, p1, x, rest0[0], rest1[0]);
    if ret {
      if slots[at].key != -1 {
        var r := ReadRow(slots[at], buf0, buf1, x, rest0[0], rest1[0]);
        row := Some(r);
      }
    }
  }

  /** The strings that a filled slot points to. */
  method ReadRow(slot: Slot, buf0: array<char>, buf1: array<char>, ghost x: Texts, ghost t0: Span, ghost t1: Span)
    returns (row: Row)
    requires x.Ok() && IsLine(x.s0, x.n0, t0) && IsLine(x.s1, x.n1, t1)
    requires Fresh(buf0[..], x.s0, Behind(x.n0, t0)) && Cut(buf0[..], x.s0, t0, true)
    requires Fresh(buf1[..], x.s1, Behind(x.n1, t1)) && Cut(buf1[..], x.s1, t1, true)
    requires Accepted(x, t0, t1) && slot == Slot(t0.start, ValueStart(x.s0, t0), ValueStart(x.s1, t1))
    ensures row == RowOf(x, t0, t1)
  {
    var key := ReadKey(buf0, slot.key, x.s0, x.n0, t0);
    var value1 := ReadValue(buf0, slot.value1, x.s0, x.n0, t0);
    var value2 := ReadValue(buf1, slot.value2, x.s1, x.n1, t1);
    row := Row(key, value1, value2);
  }

  method ReadValue(buf: array<char>, v: nat, ghost s: seq<char>, ghost n: nat, ghost t: Span) returns (value: seq<char>)
    requires Loaded(s, n) && IsLine(s, n, t) && Fresh(buf[..], s, Behind(n, t)) && Cut(buf[..], s, t, true)
    requires v == ValueStart(s, t) && |Seps(s, t)| > 1
    ensures value == Value(s, n, t)
  {
    ghost var end := if HasSep(s, t) then t.end else n;
    assert v <= end by {
      if HasSep(s, t) {
        assert !Sep(s[t.end]);
      } else {
        assert Sep(s[t.end + 1]) && !Sep(s[n]);
      }
    }
    value := StringAt(buf, v, end);
    assert value == s[v..end];
  }

  /** What strtok returned, and where it goes on. */
  datatype Cursor = Cursor(token: int, save: nat)

  function TextOf(x: Texts, second: bool): seq<char> {
    if second then x.s1 else x.s0
  }

  function LinesOf(x: Texts, second: bool): seq<Span>
    requires x.Ok()
  {
    if second then Tokens(x.s1, x.n1, 0) else Tokens(x.s0, x.n0, 0)
  }

  /** The keys of pair `i` are both ended. */
  predicate EndsKeys(x: Texts, i: nat)
    requires x.Ok() && i < |Verdicts(x)|
  {
    BothKeys(x, LinesOf(x, false)[i], LinesOf(x, true)[i])
  }

  function KeyEndOf(x: Texts, second: bool, i: nat): nat
    requires x.Ok() && i < |Verdicts(x)|
  {
    KeyEnd(TextOf(x, second), LinesOf(x, second)[i])
  }

  /** The contents of a buffer after `i` pairs, when strtok has ended the next line. */
  function Written(x: Texts, second: bool, i: nat): (b: seq<char>)
    requires x.Ok() && i <= |Verdicts(x)|
    ensures |b| == |TextOf(x, second)|
    decreases i, 1
  {
    LineCut(Left(x, second, i), LinesOf(x, second)[i..])
  }

  /** The contents that strtok finds. */
  function Left(x: Texts, second: bool, i: nat): (b: seq<char>)
    requires x.Ok() && i <= |Verdicts(x)|
    ensures |b| == |TextOf(x, second)|
    decreases i, 0
  {
    if i == 0 then TextOf(x, second) else Worked(x, second, i - 1)
  }

  /** And when pair `i` has been split. */
  function Worked(x: Texts, second: bool, i: nat): (b: seq<char>)
    requires x.Ok() && i < |Verdicts(x)|
    ensures |b| == |TextOf(x, second)|
    decreases i, 2
  {
    KeyCut(Written(x, second, i), EndsKeys(x, i), KeyEndOf(x, second, i))
  }

  /** The contents at the end, or where a slot is missing. */
  function Final(x: Texts, second: bool): seq<char>
    requires x.Ok()
  {
    if Rows(Verdicts(x), 0, Slots(x)).1 && Verdicts(x) != [] then Worked(x, second, |Verdicts(x)| - 1)
    else Written(x, second, |Verdicts(x)|)
  }

  /** `p` is the end of one of the first `k` lines. */
  predicate EndsALine(ts: seq<Span>, k: nat, p: nat) {
    exists j :: 0 <= j < k && j < |ts| && ts[j].end == p
  }

  /** `p` is the end of a key of one of the first `k` pairs, in which neither key is empty. */
  predicate EndsAKey(x: Texts, second: bool, k: nat, p: nat)
    requires x.Ok() && k <= |Verdicts(x)|
  {
    exists j :: 0 <= j < k && EndsKeys(x, j) && KeyEndOf(x, second, j) == p
  }

  lemma OneMoreLine(ts: seq<Span>, k: nat, p: nat)
    ensures EndsALine(ts, k + 1, p) <==> EndsALine(ts, k, p) || (k < |ts| && ts[k].end == p)
  {
  }

  lemma OneMoreKey(x: Texts, second: bool, k: nat, p: nat)
    requires x.Ok() && k < |Verdicts(x)|
    ensures EndsAKey(x, second, k + 1, p)
       <==> EndsAKey(x, second, k, p) || (EndsKeys(x, k) && KeyEndOf(x, second, k) == p)
  {
  }

  lemma CutsAt(b: seq<char>, ts: seq<Span>, i: nat, p: nat)
    requires p < |b| && i <= |ts|
    ensures LineCut(b, ts[i..])[p] == if i < |ts| && ts[i].end == p then NUL else b[p]
  {
    if i < |ts| {
      assert ts[i..][0] == ts[i];
    }
  }

  lemma NoMoreVerdicts(x: Texts, second: bool)
    requires x.Ok()
    ensures |Verdicts(x)| <= |LinesOf(x, second)|
  {
  }

  lemma KeyCutsAt(b: seq<char>, both: bool, k: nat, p: nat)
    requires p < |b|
    ensures KeyCut(b, both, k)[p] == if both && k == p then NUL else b[p]
  {
  }

  /** The places of the NULs: the ends of the lines taken, and of the keys of the pairs with two keys. */
  predicate Place(x: Texts, second: bool, lines: nat, pairs: nat, p: nat)
    requires x.Ok() && pairs <= |Verdicts(x)|
  {
    EndsALine(LinesOf(x, second), lines, p) || EndsAKey(x, second, pairs, p)
  }

  lemma {:induction false} WrittenPlaces(x: Texts, second: bool, i: nat, p: nat)
    requires x.Ok() && i <= |Verdicts(x)| && p < |TextOf(x, second)|
    ensures Written(x, second, i)[p] == if Place(x, second, i + 1, i, p) then NUL else TextOf(x, second)[p]
    decreases i, 0
  {
    var ts := LinesOf(x, second);
    NoMoreVerdicts(x, second);
    OneMoreLine(ts, i, p);
    if i == 0 {
      CutsAt(Left(x, second, 0), ts, 0, p);
    } else {
      WorkedPlaces(x, second, i - 1, p);
      CutsAt(Left(x, second, i), ts, i, p);
    }
  }

  lemma {:induction false} WorkedPlaces(x: Texts, second: bool, i: nat, p: nat)
    requires x.Ok() && i < |Verdicts(x)| && p < |TextOf(x, second)|
    ensures Worked(x, second, i)[p] == if Place(x, second, i + 1, i + 1, p) then NUL else TextOf(x, second)[p]
    decreases i, 1
  {
    WrittenPlaces(x, second, i, p);
    OneMoreKey(x, second, i, p);
    KeyCutsAt(Written(x, second, i), EndsKeys(x, i), KeyEndOf(x, second, i), p);
  }

  lemma VerdictsFit(x: Texts)
    requires x.Ok()
    ensures |Verdicts(x)| <= Slots(x) + 1
  {
    SlotsRunOutExactly(x);
    VerdictCount(x);
  }

  lemma MissingIsLast(vs: seq<Verdict>, slots: nat, keys: seq<seq<char>>, i: nat, rows: seq<Row>, used: nat,
                      shown: seq<Row>)
    requires Filled(vs, slots, keys, i, rows, used, shown) && |vs| <= slots + 1
    requires i < |vs| && used == slots && !vs[i].Refused?
    ensures i == |vs| - 1 && Rows(vs, 0, slots).1
  {
    FilledEnd(vs, slots, keys, i, rows, used, shown);
  }

  lemma FinalAtMissing(x: Texts, i: nat)
    requires x.Ok() && Rows(Verdicts(x), 0, Slots(x)).1 && i == |Verdicts(x)| - 1
    ensures Final(x, false) == Worked(x, false, i) && Final(x, true) == Worked(x, true, i)
  {
  }

  /** A missing slot is missing for the last pair. */
  lemma MissingAtLast(x: Texts, keys: seq<seq<char>>, i: nat, rows: seq<Row>, used: nat, shown: seq<Row>)
    requires x.Ok() && Filled(Verdicts(x), Slots(x), keys, i, rows, used, shown)
    requires i < |Verdicts(x)| && used == Slots(x) && !Verdicts(x)[i].Refused?
    ensures Final(x, false) == Worked(x, false, i) && Final(x, true) == Worked(x, true, i)
  {
    VerdictsFit(x);
    MissingIsLast(Verdicts(x), Slots(x), keys, i, rows, used, shown);
    FinalAtMissing(x, i);
  }

  lemma NothingMissing(x: Texts)
    requires x.Ok() && !Rows(Verdicts(x), 0, Slots(x)).1
    ensures Final(x, false) == Written(x, false, |Verdicts(x)|) && Final(x, true) == Written(x, true, |Verdicts(x)|)
  {
  }

  function LengthOf(x: Texts, second: bool): nat {
    if second then x.n1 else x.n0
  }

  /** What strtok returns when it ends the line `i`, or finds no more. */
  function CursorOf(x: Texts, second: bool, i: nat): Cursor
    requires x.Ok() && i <= |LinesOf(x, second)|
  {
    var ts, n := LinesOf(x, second), LengthOf(x, second);
    if i < |ts| then Cursor(ts[i].start, Behind(n, ts[i])) else Cursor(-1, n)
  }

  /** The text behind a line is untouched while the line is worked on. */
  lemma {:induction false} StillAhead(x: Texts, second: bool, i: nat)
    requires x.Ok() && i < |Verdicts(x)| && i < |LinesOf(x, second)|
    requires At(Written(x, second, i), TextOf(x, second), LengthOf(x, second), CursorOf(x, second, i).token,
                CursorOf(x, second, i).save, LinesOf(x, second)[i..])
    ensures var save := CursorOf(x, second, i).save;
            && save <= LengthOf(x, second) && Fresh(Worked(x, second, i), TextOf(x, second), save)
            && LinesOf(x, second)[i + 1..] == Tokens(TextOf(x, second), LengthOf(x, second), save)
  {
    var ts := LinesOf(x, second);
    assert ts[i..][0] == ts[i] && ts[i..][1..] == ts[i + 1..];
    EndsOneKey(Written(x, second, i), TextOf(x, second), LengthOf(x, second), ts[i], EndsKeys(x, i));
  }

  lemma EndsOneKey(b: seq<char>, s: seq<char>, n: nat, t: Span, both: bool)
    requires Loaded(s, n) && IsLine(s, n, t) && Fresh(b, s, Behind(n, t)) && Cut(b, s, t, false)
    ensures Fresh(KeyCut(b, both, KeyEnd(s, t)), s, Behind(n, t))
  {
  }

  function SaveOf(x: Texts, second: bool, i: nat): nat
    requires x.Ok() && i <= |LinesOf(x, second)|
  {
    if i == 0 then 0 else CursorOf(x, second, i - 1).save
  }

  /** The text from line `i` on is untouched when strtok goes on to it. */
  predicate Ready(x: Texts, second: bool, i: nat)
    requires x.Ok() && i <= |Verdicts(x)| && i <= |LinesOf(x, second)|
  {
    var save := SaveOf(x, second, i);
    && save <= LengthOf(x, second) && Fresh(Left(x, second, i), TextOf(x, second), save)
    && LinesOf(x, second)[i..] == Tokens(TextOf(x, second), LengthOf(x, second), save)
  }

  lemma TakesCursor(x: Texts, second: bool, i: nat)
    requires x.Ok() && i <= |Verdicts(x)| && i <= |LinesOf(x, second)| && Ready(x, second, i)
    ensures At(Written(x, second, i), TextOf(x, second), LengthOf(x, second), CursorOf(x, second, i).token,
               CursorOf(x, second, i).save, LinesOf(x, second)[i..])
  {
    TakesLine(Left(x, second, i), TextOf(x, second), LengthOf(x, second), SaveOf(x, second, i));
  }

  lemma {:induction false} AlwaysReady(x: Texts, second: bool, i: nat)
    requires x.Ok() && i <= |Verdicts(x)| && i <= |LinesOf(x, second)|
    ensures Ready(x, second, i)
  {
    if i == 0 {
      assert LinesOf(x, second)[0..] == LinesOf(x, second);
    } else {
      AlwaysReady(x, second, i - 1);
      TakesCursor(x, second, i - 1);
      StillAhead(x, second, i - 1);
    }
  }

  /** The contents after `i` pairs are such that strtok can go on. */
  lemma StateAt(x: Texts, second: bool, i: nat)
    requires x.Ok() && i <= |Verdicts(x)| && i <= |LinesOf(x, second)|
    ensures At(Written(x, second, i), TextOf(x, second), LengthOf(x, second), CursorOf(x, second, i).token,
               CursorOf(x, second, i).save, LinesOf(x, second)[i..])
  {
    AlwaysReady(x, second, i);
    TakesCursor(x, second, i);
  }

  /** The two buffers and where strtok is in them, after `i` pairs. */
  ghost predicate Holds(x: Texts, b0: seq<char>, b1: seq<char>, c0: Cursor, c1: Cursor, i: nat) {
    && x.Ok() && i <= |Verdicts(x)|
    && b0 == Written(x, false, i) && i <= |LinesOf(x, false)| && c0 == CursorOf(x, false, i)
    && b1 == Written(x, true, i) && i <= |LinesOf(x, true)| && c1 == CursorOf(x, true, i)
  }

  lemma HoldsMore(x: Texts, b0: seq<char>, b1: seq<char>, c0: Cursor, c1: Cursor, i: nat)
    requires Holds(x, b0, b1, c0, c1, i)
    ensures i < |Verdicts(x)| <==> c0.token != -1 && c1.token != -1
  {
  }

  lemma SameCursor(x: Texts, second: bool, i: nat, b: seq<char>, c: Cursor)
    requires x.Ok() && i <= |LinesOf(x, second)|
    requires At(b, TextOf(x, second), LengthOf(x, second), c.token, c.save, LinesOf(x, second)[i..])
    ensures c == CursorOf(x, second, i)
  {
  }

  /** One call of strtok, on the contents left by pair `i - 1`. */
  method LineOf(buf: array<char>, save: nat, ghost x: Texts, ghost second: bool, ghost i: nat) returns (c: Cursor)
    requires x.Ok() && i <= |Verdicts(x)| && i <= |LinesOf(x, second)|
    requires save == SaveOf(x, second, i) && buf[..] == Left(x, second, i)
    modifies buf
    ensures buf[..] == Written(x, second, i) && c == CursorOf(x, second, i)
  {
    AlwaysReady(x, second, i);
    var token, save' := StrTok(buf, save, TextOf(x, second), LengthOf(x, second));
    c := Cursor(token, save');
    SameCursor(x, second, i, buf[..], c);
  }

  /** The next line of both texts. */
  method BothLines(buf0: array<char>, save0: nat, buf1: array<char>, save1: nat, ghost x: Texts, ghost i: nat)
    returns (c0: Cursor, c1: Cursor)
    requires x.Ok() && buf0 != buf1 && i <= |Verdicts(x)|
    requires i <= |LinesOf(x, false)| && save0 == SaveOf(x, false, i) && buf0[..] == Left(x, false, i)
    requires i <= |LinesOf(x, true)| && save1 == SaveOf(x, true, i) && buf1[..] == Left(x, true, i)
    modifies buf0, buf1
    ensures Holds(x, buf0[..], buf1[..], c0, c1, i)
    ensures i < |Verdicts(x)| <==> c0.token != -1 && c1.token != -1
  {
    c0 := LineOf(buf0, save0, x, false, i);
    c1 := LineOf(buf1, save1, x, true, i);
    HoldsMore(x, buf0[..], buf1[..], c0, c1, i);
  }

  lemma RestOf(x: Texts, second: bool, i: nat)
    requires x.Ok() && i < |Verdicts(x)|
    ensures i < |LinesOf(x, second)| && LinesOf(x, second)[i..] != [] && LinesOf(x, second)[i..][0] == LinesOf(x, second)[i]
    ensures AreLines(TextOf(x, second), LengthOf(x, second), LinesOf(x, second)[i..])
  {
  }

  /** The key of a pair's line is ended. */
  lemma WorkDone(x: Texts, second: bool, i: nat, b: seq<char>)
    requires x.Ok() && i < |Verdicts(x)| && i < |LinesOf(x, false)| && i < |LinesOf(x, true)|
    requires b == KeyCut(Written(x, second, i), BothKeys(x, LinesOf(x, false)[i], LinesOf(x, true)[i]),
                         KeyEnd(TextOf(x, second), LinesOf(x, second)[i]))
    ensures b == Worked(x, second, i)
  {
  }

  lemma SaveAfter(x: Texts, second: bool, i: nat)
    requires x.Ok() && i < |Verdicts(x)| && i < |LinesOf(x, second)|
    ensures CursorOf(x, second, i).save == SaveOf(x, second, i + 1)
  {
  }

  /** Splits the lines of pair `i`. */
  method WorkOn(slots: array<Slot>, at: nat, buf0: array<char>, c0: Cursor, buf1: array<char>, c1: Cursor,
                ghost x: Texts, ghost i: nat)
    returns (row: Option<Row>, missing: bool)
    requires buf0 != buf1 && Holds(x, buf0[..], buf1[..], c0, c1, i) && i < |Verdicts(x)|
    modifies slots, buf0, buf1
    ensures buf0[..] == Worked(x, false, i) && buf1[..] == Worked(x, true, i)
    ensures i < |LinesOf(x, false)| && c0.save == SaveOf(x, false, i + 1)
    ensures i < |LinesOf(x, true)| && c1.save == SaveOf(x, true, i + 1)
    ensures missing <==> at >= slots.Length && !Verdicts(x)[i].Refused?
    ensures !missing ==> row == if Verdicts(x)[i].Stored? then Some(Verdicts(x)[i].row) else None
  {
    RestOf(x, false, i);
    RestOf(x, true, i);
    StateAt(x, false, i);
    StateAt(x, true, i);
    VerdictAt(x, i);
    row, missing := ShowPair(slots, at, buf0, c0.token, c0.save, buf1, c1.token, c1.save, x,
      LinesOf(x, false)[i..], LinesOf(x, true)[i..], Verdicts(x)[i]);
    WorkDone(x, false, i, buf0[..]);
    WorkDone(x, true, i, buf1[..]);
    SaveAfter(x, false, i);
    SaveAfter(x, true, i);
  }

  /** Takes a row into what is shown. */
  method Show(row: Option<Row>, used: nat, shown: seq<Row>, keys: seq<seq<char>>,
              ghost vs: seq<Verdict>, ghost slots: nat, ghost i: nat, ghost rows: seq<Row>)
    returns (used': nat, shown': seq<Row>, ghost rows': seq<Row>)
    requires Filled(vs, slots, keys, i, rows, used, shown) && i < |vs| && (vs[i].Refused? || used < slots)
    requires row == if vs[i].Stored? then Some(vs[i].row) else None
    ensures Filled(vs, slots, keys, i + 1, rows', used', shown')
  {
    used', shown', rows' := used, shown, rows;
    if row.Some? {
      FilledStored(vs, slots, keys, i, rows, used, shown, row.value);
      var interesting := InterestingSchedStat(row.value.key, keys);
      if interesting {
        shown' := shown + [row.value];
      }
      used', rows' := used + 1, rows + [row.value];
    } else {
      FilledSkipped(vs, slots, keys, i, rows, used, shown);
    }
  }

  /** What `parse_sched_data` has done when it ends. */
  ghost predicate Done(x: Texts, keys: seq<seq<char>>, b0: seq<char>, b1: seq<char>, shown: seq<Row>, used: nat,
                       missing: bool) {
    && x.Ok() && b0 == Final(x, false) && b1 == Final(x, true)
    && var (rows, over) := Rows(Verdicts(x), 0, Slots(x));
    && shown == Shown(rows, keys) && used == |rows| && missing == over
  }

  lemma DoneMissing(x: Texts, keys: seq<seq<char>>, i: nat, rows: seq<Row>, used: nat, shown: seq<Row>)
    requires x.Ok() && Filled(Verdicts(x), Slots(x), keys, i, rows, used, shown)
    requires i < |Verdicts(x)| && used == Slots(x) && !Verdicts(x)[i].Refused?
    ensures Done(x, keys, Worked(x, false, i), Worked(x, true, i), shown, used, true)
  {
    MissingAtLast(x, keys, i, rows, used, shown);
    FilledEnd(Verdicts(x), Slots(x), keys, i, rows, used, shown);
  }

  lemma DoneAll(x: Texts, keys: seq<seq<char>>, rows: seq<Row>, used: nat, shown: seq<Row>)
    requires x.Ok() && Filled(Verdicts(x), Slots(x), keys, |Verdicts(x)|, rows, used, shown)
    ensures Done(x, keys, Written(x, false, |Verdicts(x)|), Written(x, true, |Verdicts(x)|), shown, used, false)
  {
    FilledEnd(Verdicts(x), Slots(x), keys, |Verdicts(x)|, rows, used, shown);
    NothingMissing(x);
  }

  /** One round of the loop of `parse_sched_data`. */
  method Round(slots: array<Slot>, used: nat, shown: seq<Row>, keys: seq<seq<char>>, buf0: array<char>, c0: Cursor,
               buf1: array<char>, c1: Cursor, ghost x: Texts, ghost i: nat, ghost rows: seq<Row>)
    returns (used': nat, shown': seq<Row>, missing: bool, c0': Cursor, c1': Cursor, ghost rows': seq<Row>)
    requires buf0 != buf1 && Holds(x, buf0[..], buf1[..], c0, c1, i) && i < |Verdicts(x)|
    requires Filled(Verdicts(x), Slots(x), keys, i, rows, used, shown) && slots.Length == Slots(x)
    modifies slots, buf0, buf1
    ensures missing ==> Done(x, keys, buf0[..], buf1[..], shown', used', true)
    ensures !missing ==> Holds(x, buf0[..], buf1[..], c0', c1', i + 1)
    ensures !missing ==> (i + 1 < |Verdicts(x)| <==> c0'.token != -1 && c1'.token != -1)
    ensures !missing ==> Filled(Verdicts(x), Slots(x), keys, i + 1, rows', used', shown')
  {
    used', shown', c0', c1', rows' := used, shown, c0, c1, rows;
    var row;
    row, missing := WorkOn(slots, used, buf0, c0, buf1, c1, x, i);
    if missing {
      DoneMissing(x, keys, i, rows, used, shown);
      return;
    }
    used', shown', rows' := Show(row, used, shown, keys, Verdicts(x), Slots(x), i, rows);
    c0', c1' := BothLines(buf0, c0.save, buf1, c1.save, x, i + 1);
  }

  /** `parse_sched_data`: shows the rows with interesting keys and says how many slots were used, and whether
    one was missing. The run stops at a missing slot; the code would write behind its slots. */
  method ParseSchedData(buf0: array<char>, buf1: array<char>, keys: seq<seq<char>>, ghost x: Texts)
    returns (shown: seq<Row>, used: nat, missing: bool)
    requires x.Ok() && buf0 != buf1 && buf0[..] == x.s0 && buf1[..] == x.s1
    modifies buf0, buf1
    ensures shown == Shown(Rows(Verdicts(x), 0, Slots(x)).0, keys)
    ensures used == |Rows(Verdicts(x), 0, Slots(x)).0| && missing == Rows(Verdicts(x), 0, Slots(x)).1
    ensures buf0[..] == Final(x, false) && buf1[..] == Final(x, true)
  {
    var lines := CountSchedLines(buf0, x.n0);
    var slots := new Slot[lines](_ => NULLSLOT);
    shown, used, missing := [], 0, false;
    ghost var i, rows := 0, [];
    FilledStart(Verdicts(x), lines, keys);
    var c0, c1 := BothLines(buf0, 0, buf1, 0, x, 0);
    while c0.token != -1 && c1.token != -1
      invariant fresh(slots) && slots.Length == lines == Slots(x)
      invariant Holds(x, buf0[..], buf1[..], c0, c1, i)
      invariant i < |Verdicts(x)| <==> c0.token != -1 && c1.token != -1
      invariant Filled(Verdicts(x), lines, keys, i, rows, used, shown)
      decreases |Verdicts(x)| - i
    {
      used, shown, missing, c0, c1, rows := Round(slots, used, shown, keys, buf0, c0, buf1, c1, x, i, rows);
      if missing {
        return;
      }
      i := i + 1;
    }
    DoneAll(x, keys, rows, used, shown);
  }
}
