/** Reports of the scheduler as `parse_sched_data` meets them: lines of a key, a colon with spaces around it,
  and a value, each ended by a newline. What is shown of two such reports is what was written into them. */
module SchedReports {
  import opened SchedLines

  /** One line of a report; `before` and `behind` count the spaces around its colon. */
  datatype Entry = Entry(key: seq<char>, before: nat, behind: nat, value: seq<char>)

  function Spaces(n: nat): (s: seq<char>)
    ensures |s| == n && forall i :: 0 <= i < n ==> s[i] == ' '
  {
    seq(n, i => ' ')
  }

  function Colon(e: Entry): seq<char> {
    Spaces(e.before) + [':'] + Spaces(e.behind)
  }

  function Rendered(e: Entry): seq<char> {
    e.key + Colon(e) + e.value
  }

  /** Keys are words; a value may be anything that does not begin with a separator. */
  predicate Proper(e: Entry) {
    && e.key != [] && ':' !in e.key && ' ' !in e.key && '\n' !in e.key && NUL !in e.key
    && '\n' !in e.value && NUL !in e.value
    && (e.value != [] ==> e.value[0] != ':' && e.value[0] != ' ')
  }

  function Report(es: seq<Entry>): seq<char> {
    if es == [] then [] else Rendered(es[0]) + ['\n'] + Report(es[1..])
  }

  predicate AllProper(es: seq<Entry>) {
    forall i :: 0 <= i < |es| ==> Proper(es[i])
  }

  function Buffer(es: seq<Entry>): seq<char> {
    Report(es) + [NUL, NUL]
  }

  // ---- one line ----

  lemma RenderedIsPlain(e: Entry)
    requires Proper(e)
    ensures '\n' !in Rendered(e) && NUL !in Rendered(e) && Rendered(e) != []
    ensures Parted(Rendered(e), e.key, Colon(e), e.value)
  {
  }

  /** Two lines of this form should be refused if the keys differ, cleared if a colon stands alone, and otherwise
    make the row of the key and the two values. */
  function Due(e0: Entry, e1: Entry): Verdict {
    if e0.key != e1.key then Refused
    else if e0.before + e0.behind == 0 || e1.before + e1.behind == 0 then Cleared
    else Stored(Row(e0.key, e0.value, e1.value))
  }

  lemma JudgedAsWritten(x: Texts, t0: Span, t1: Span, e0: Entry, e1: Entry)
    requires x.Ok() && IsLine(x.s0, x.n0, t0) && IsLine(x.s1, x.n1, t1) && Proper(e0) && Proper(e1)
    requires Line(x.s0, t0) == Rendered(e0) && Line(x.s1, t1) == Rendered(e1)
    ensures Judge(x, t0, t1) == Due(e0, e1)
  {
    RenderedIsPlain(e0);
    RenderedIsPlain(e1);
    OnlyReading(x.s0, x.n0, t0, e0.key, Colon(e0), e0.value);
    OnlyReading(x.s1, x.n1, t1, e1.key, Colon(e1), e1.value);
  }

  // ---- a whole report ----

  lemma {:induction false} ReportIsText(es: seq<Entry>)
    requires AllProper(es)
    ensures NUL !in Report(es)
    ensures es != [] ==> Report(es) != [] && Report(es)[|Report(es)| - 1] == '\n'
  {
    if es != [] {
      RenderedIsPlain(es[0]);
      ReportIsText(es[1..]);
    }
  }

  lemma BufferIsLoaded(es: seq<Entry>)
    requires AllProper(es)
    ensures Loaded(Buffer(es), |Report(es)|) && !Unended(Buffer(es), |Report(es)|)
    ensures Buffer(es)[..|Report(es)|] == Report(es)
  {
    ReportIsText(es);
    var n := |Report(es)|;
    forall i | 0 <= i < n ensures Buffer(es)[i] != NUL {
      assert Buffer(es)[i] == Report(es)[i];
    }
  }

  lemma EndOfLine(s: seq<char>, n: nat, p: nat, end: nat)
    requires p < end < n <= |s| && s[end] == '\n' && forall i :: p <= i < end ==> s[i] != '\n'
    ensures SkipNewlines(s, n, p) == p && LineEnd(s, n, p) == end
  {
  }

  lemma ReportSplits(s: seq<char>, n: nat, p: nat, es: seq<Entry>)
    requires p <= n <= |s| && s[p..n] == Report(es) && es != []
    ensures var end := p + |Rendered(es[0])|;
            end < n && s[p..end] == Rendered(es[0]) && s[end] == '\n' && s[end + 1..n] == Report(es[1..])
  {
    var end := p + |Rendered(es[0])|;
    assert |Report(es)| == |Rendered(es[0])| + 1 + |Report(es[1..])|;
    assert s[p..end] == s[p..n][..|Rendered(es[0])|];
    assert s[end] == s[p..n][|Rendered(es[0])|];
    assert s[end + 1..n] == s[p..n][|Rendered(es[0])| + 1..];
  }

  /** A report stands between `p` and `n`. */
  predicate Reported(s: seq<char>, n: nat, p: nat, es: seq<Entry>)
    requires n <= |s|
    decreases |es|
  {
    if es == [] then p == n
    else
      var end := p + |Rendered(es[0])|;
      end < n && s[p..end] == Rendered(es[0]) && s[end] == '\n' && Reported(s, n, end + 1, es[1..])
  }

  lemma {:induction false} IsReported(s: seq<char>, n: nat, p: nat, es: seq<Entry>)
    requires p <= n <= |s| && s[p..n] == Report(es)
    ensures Reported(s, n, p, es)
    decreases |es|
  {
    if es != [] {
      ReportSplits(s, n, p, es);
      IsReported(s, n, p + |Rendered(es[0])| + 1, es[1..]);
    }
  }

  lemma FirstOfReport(s: seq<char>, n: nat, p: nat, end: nat, e: Entry)
    requires Proper(e) && end == p + |Rendered(e)| < n <= |s| && s[p..end] == Rendered(e) && s[end] == '\n'
    ensures Tokens(s, n, p) == [Span(p, end)] + Tokens(s, n, end + 1)
  {
    RenderedIsPlain(e);
    forall i | p <= i < end ensures s[i] != '\n' {
      assert s[i] == Rendered(e)[i - p];
    }
    EndOfLine(s, n, p, end);
    NextToken(s, n, p, p, end);
  }

  lemma ProperTail(es: seq<Entry>)
    requires AllProper(es) && es != []
    ensures Proper(es[0]) && AllProper(es[1..])
  {
  }

  /** Where the lines of a report stand that begins at `p`. */
  function Stands(p: nat, es: seq<Entry>): (ts: seq<Span>)
    ensures |ts| == |es|
    decreases |es|
  {
    if es == [] then [] else
      var end := p + |Rendered(es[0])|;
      [Span(p, end)] + Stands(end + 1, es[1..])
  }

  lemma StandsFirst(p: nat, es: seq<Entry>, end: nat)
    requires es != [] && end == p + |Rendered(es[0])|
    ensures Stands(p, es) == [Span(p, end)] + Stands(end + 1, es[1..])
  {
  }

  /** The code finds them there ... */
  lemma {:induction false} FindsLines(s: seq<char>, n: nat, p: nat, es: seq<Entry>)
    requires p <= n <= |s| && Reported(s, n, p, es) && AllProper(es)
    ensures Tokens(s, n, p) == Stands(p, es)
    decreases |es|
  {
    if es != [] {
      ProperTail(es);
      var end := p + |Rendered(es[0])|;
      FirstOfReport(s, n, p, end, es[0]);
      FindsLines(s, n, end + 1, es[1..]);
      StandsFirst(p, es, end);
    }
  }

  /** ... and they are the lines written. */
  lemma {:induction false} LinesStand(s: seq<char>, n: nat, p: nat, es: seq<Entry>, i: nat)
    requires p <= n <= |s| && Reported(s, n, p, es) && i < |es|
    ensures Stands(p, es)[i].start <= Stands(p, es)[i].end <= |s| && Line(s, Stands(p, es)[i]) == Rendered(es[i])
    decreases |es|
  {
    if i > 0 {
      LinesStand(s, n, p + |Rendered(es[0])| + 1, es[1..], i - 1);
    }
  }

  /** The i-th line found in a report is the i-th line written, and there are no others. */
  lemma LinesOfReport(s: seq<char>, n: nat, es: seq<Entry>, i: nat)
    requires n <= |s| && s[..n] == Report(es) && AllProper(es)
    ensures |Tokens(s, n, 0)| == |es|
    ensures i < |es| ==> Line(s, Tokens(s, n, 0)[i]) == Rendered(es[i])
  {
    assert s[0..n] == s[..n];
    IsReported(s, n, 0, es);
    FindsLines(s, n, 0, es);
    if i < |es| {
      LinesStand(s, n, 0, es, i);
    }
  }

  // ---- two reports ----

  function Both(es0: seq<Entry>, es1: seq<Entry>): Texts {
    Texts(Buffer(es0), |Report(es0)|, Buffer(es1), |Report(es1)|)
  }

  /** The i-th lines have one key, and a space beside their colons. */
  predicate Agree(e0: Entry, e1: Entry) {
    e0.key == e1.key && e0.before + e0.behind > 0 && e1.before + e1.behind > 0
  }

  /** What should be shown of the first `k` lines: the rows of those that agree on one of the keys. */
  function Expected(es0: seq<Entry>, es1: seq<Entry>, keys: seq<seq<char>>, k: nat): seq<Row>
    requires k <= |es0| && k <= |es1|
  {
    if k == 0 then []
    else
      Expected(es0, es1, keys, k - 1)
      + if Agree(es0[k - 1], es1[k - 1]) && es0[k - 1].key in keys
        then [Row(es0[k - 1].key, es0[k - 1].value, es1[k - 1].value)]
        else []
  }

  lemma ReportsJudged(es0: seq<Entry>, es1: seq<Entry>, i: nat)
    requires AllProper(es0) && AllProper(es1) && i < |es0| && i < |es1|
    ensures Both(es0, es1).Ok()
    ensures |Verdicts(Both(es0, es1))| == if |es0| < |es1| then |es0| else |es1|
    ensures Verdicts(Both(es0, es1))[i] == Due(es0[i], es1[i])
  {
    var x := Both(es0, es1);
    BufferIsLoaded(es0);
    BufferIsLoaded(es1);
    LinesOfReport(x.s0, x.n0, es0, i);
    LinesOfReport(x.s1, x.n1, es1, i);
    VerdictAt(x, i);
    JudgedAsWritten(x, Tokens(x.s0, x.n0, 0)[i], Tokens(x.s1, x.n1, 0)[i], es0[i], es1[i]);
  }

  /** The row of a stored pair that has one of the keys. */
  function RowIf(v: Verdict, keys: seq<seq<char>>): seq<Row> {
    if v.Stored? && v.row.key in keys then [v.row] else []
  }

  /** The rows of the first `k` stored pairs that have one of the keys. */
  function Kept(vs: seq<Verdict>, keys: seq<seq<char>>, k: nat): seq<Row>
    requires k <= |vs|
  {
    if k == 0 then [] else Kept(vs, keys, k - 1) + RowIf(vs[k - 1], keys)
  }

  lemma ShowsOne(rows: seq<Row>, keys: seq<seq<char>>, c: nat, v: Verdict)
    requires c < |rows| && v == Stored(rows[c])
    ensures Shown(rows[..c + 1], keys) == Shown(rows[..c], keys) + RowIf(v, keys)
  {
    assert rows[..c + 1] == rows[..c] + [rows[c]];
    ShownMore(rows[..c], rows[c], keys);
  }

  /** The stored pair `j` has its row in its place. */
  predicate Placed(vs: seq<Verdict>, rows: seq<Row>, j: nat)
    requires j < |vs|
  {
    vs[j].Stored? ==> StoredBefore(vs, j) < |rows| && vs[j] == Stored(rows[StoredBefore(vs, j)])
  }

  lemma {:induction false} ShowsKept(vs: seq<Verdict>, rows: seq<Row>, keys: seq<seq<char>>, k: nat)
    requires k <= |vs| && StoredBefore(vs, k) <= |rows| && forall j :: 0 <= j < k ==> Placed(vs, rows, j)
    ensures Shown(rows[..StoredBefore(vs, k)], keys) == Kept(vs, keys, k)
    decreases k
  {
    if k > 0 {
      assert Placed(vs, rows, k - 1);
      ShowsKept(vs, rows, keys, k - 1);
      if vs[k - 1].Stored? {
        ShowsOne(rows, keys, StoredBefore(vs, k - 1), vs[k - 1]);
      }
    }
  }

  /** With slots for all, every row is in its place, and there are no others. */
  lemma AllPlaced(vs: seq<Verdict>, slots: nat)
    requires !Rows(vs, 0, slots).1
    ensures StoredBefore(vs, |vs|) == |Rows(vs, 0, slots).0|
    ensures forall j :: 0 <= j < |vs| ==> Placed(vs, Rows(vs, 0, slots).0, j)
  {
    RowsInOrder(vs, 0, slots, |vs|);
    forall j | 0 <= j < |vs| ensures Placed(vs, Rows(vs, 0, slots).0, j) {
      RowsInOrder(vs, 0, slots, j);
    }
  }

  lemma ExpectedOne(es0: seq<Entry>, es1: seq<Entry>, keys: seq<seq<char>>, k: nat)
    requires 0 < k <= |es0| && k <= |es1|
    ensures Expected(es0, es1, keys, k) == Expected(es0, es1, keys, k - 1) + RowIf(Due(es0[k - 1], es1[k - 1]), keys)
  {
  }

  lemma {:induction false} ExpectedIsKept(es0: seq<Entry>, es1: seq<Entry>, keys: seq<seq<char>>, vs: seq<Verdict>, k: nat)
    requires k <= |es0| && k <= |es1| && k <= |vs|
    requires forall i :: 0 <= i < k ==> vs[i] == Due(es0[i], es1[i])
    ensures Kept(vs, keys, k) == Expected(es0, es1, keys, k)
    decreases k
  {
    if k > 0 {
      ExpectedIsKept(es0, es1, keys, vs, k - 1);
      ExpectedOne(es0, es1, keys, k);
    }
  }

  lemma VerdictsOfReports(es0: seq<Entry>, es1: seq<Entry>)
    requires AllProper(es0) && AllProper(es1)
    ensures var x := Both(es0, es1);
            x.Ok() && |Verdicts(x)| == (if |es0| < |es1| then |es0| else |es1|) && !Unended(x.s0, x.n0)
  {
    var x := Both(es0, es1);
    BufferIsLoaded(es0);
    BufferIsLoaded(es1);
    LinesOfReport(x.s0, x.n0, es0, 0);
    LinesOfReport(x.s1, x.n1, es1, 0);
  }

  /** Whatever two reports hold, no slot is missing, and the lines shown are those whose keys agree and are
    interesting, with the values of both reports, in their order. */
  lemma ReportsAreShown(es0: seq<Entry>, es1: seq<Entry>, keys: seq<seq<char>>)
    requires AllProper(es0) && AllProper(es1)
    ensures var x := Both(es0, es1);
            && x.Ok() && !Rows(Verdicts(x), 0, Slots(x)).1
            && Shown(Rows(Verdicts(x), 0, Slots(x)).0, keys)
               == Expected(es0, es1, keys, if |es0| < |es1| then |es0| else |es1|)
  {
    var x := Both(es0, es1);
    VerdictsOfReports(es0, es1);
    var vs := Verdicts(x);
    SlotsRunOutExactly(x);
    var rows := Rows(vs, 0, Slots(x)).0;
    AllPlaced(vs, Slots(x));
    ShowsKept(vs, rows, keys, |vs|);
    forall i | 0 <= i < |vs| ensures vs[i] == Due(es0[i], es1[i]) {
      ReportsJudged(es0, es1, i);
    }
    ExpectedIsKept(es0, es1, keys, vs, |vs|);
    assert rows[..StoredBefore(vs, |vs|)] == rows;
  }

  const SWITCHES: seq<char> := "nr_switches : 12\n"

  /** The line "nr_switches : 12" in both texts shows the row of that key and 12 twice. */
  lemma SwitchesAreShown()
    ensures var x := Texts(SWITCHES + [NUL, NUL], |SWITCHES|, SWITCHES + [NUL, NUL], |SWITCHES|);
            && x.Ok() && Shown(Rows(Verdicts(x), 0, Slots(x)).0, ["nr_switches"]) == [Row("nr_switches", "12", "12")]
  {
    var es := [Entry("nr_switches", 1, 1, "12")];
    SwitchesAreReported(es);
    ReportsAreShown(es, es, ["nr_switches"]);
    assert Expected(es, es, ["nr_switches"], 0) == [];
  }

  lemma SwitchesAreReported(es: seq<Entry>)
    requires es == [Entry("nr_switches", 1, 1, "12")]
    ensures AllProper(es) && Report(es) == SWITCHES
  {
    assert Colon(es[0]) == " : ";
    assert Report(es) == Rendered(es[0]) + ['\n'] + [];
  }
}
