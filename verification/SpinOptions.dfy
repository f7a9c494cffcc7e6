/** The menu of the spin mode: the table that the linker collects, sorted, and the option that picks the
  methods of ping and pong from it. */
module SpinOptions {
  import opened Units

  /** An entry of the table; the functions are their addresses. */
  datatype Method = Method(sequence: int, fnName: string, description: string, ping: nat, pong: nat)

  // ---- the comparator ----

  /** The sign of `strcmp`. */
  function StrCmp(a: string, b: string): int {
    if a == [] then (if b == [] then 0 else -1)
    else if b == [] || a[0] > b[0] then 1
    else if a[0] < b[0] then -1
    else StrCmp(a[1..], b[1..])
  }

  /** `compare_memsync_structs`; `before` says that the slot of `a` lies before the slot of `b`. */
  function Compare(a: Method, b: Method, before: bool): int {
    if a.sequence < b.sequence then -1
    else if a.sequence > b.sequence then 1
    else if StrCmp(a.fnName, b.fnName) != 0 then StrCmp(a.fnName, b.fnName)
    else if StrCmp(a.description, b.description) != 0 then StrCmp(a.description, b.description)
    else if before then 1 else 0
  }

  lemma {:induction false} StrCmpOpposite(a: string, b: string)
    ensures StrCmp(b, a) == -StrCmp(a, b) && (StrCmp(a, b) == 0 <==> a == b)
  {
    if a != [] && b != [] && a[0] == b[0] {
      StrCmpOpposite(a[1..], b[1..]);
      assert a == [a[0]] + a[1..] && b == [b[0]] + b[1..];
    }
  }

  lemma {:induction false} StrCmpTransitive(a: string, b: string, c: string)
    requires StrCmp(a, b) <= 0 && StrCmp(b, c) <= 0
    ensures StrCmp(a, c) <= 0 && (StrCmp(a, c) == 0 ==> StrCmp(a, b) == 0 && StrCmp(b, c) == 0)
  {
    if a != [] && b != [] && c != [] && a[0] == b[0] == c[0] {
      StrCmpTransitive(a[1..], b[1..], c[1..]);
    }
  }

  predicate SameKey(a: Method, b: Method) {
    a.sequence == b.sequence && a.fnName == b.fnName && a.description == b.description
  }

  /** Exchanging the arguments turns the sign around exactly when the entries differ in what is compared:
    of two equal ones, the first comes after the second, and the second does not come before the first. */
  lemma ComparatorConsistent(a: Method, b: Method, before: bool)
    ensures Compare(b, a, !before) == -Compare(a, b, before) <==> !SameKey(a, b)
    ensures SameKey(a, b) ==> Compare(a, b, true) == 1 && Compare(b, a, false) == 0
    ensures !SameKey(a, b) ==> Compare(a, b, before) == Compare(a, b, !before) != 0
  {
    StrCmpOpposite(a.fnName, b.fnName);
    StrCmpOpposite(a.description, b.description);
  }

  /** The order of a dictionary: up to some place the texts agree, and there `a` ends or has the smaller
    character. */
  ghost predicate Precedes(a: string, b: string) {
    exists k: nat :: PrecedesAt(a, b, k)
  }

  predicate PrecedesAt(a: string, b: string, k: nat) {
    k <= |a| && k < |b| && a[..k] == b[..k] && (k < |a| ==> a[k] < b[k])
  }

  lemma {:induction false} StrCmpPrecedes(a: string, b: string)
    ensures StrCmp(a, b) < 0 <==> Precedes(a, b)
  {
    if a == [] || b == [] || a[0] != b[0] {
      assert StrCmp(a, b) < 0 ==> PrecedesAt(a, b, 0);
      forall k: nat | PrecedesAt(a, b, k) ensures StrCmp(a, b) < 0 {
        assert k > 0 ==> a[..k][0] == b[..k][0];
      }
    } else {
      StrCmpPrecedes(a[1..], b[1..]);
      if StrCmp(a, b) < 0 {
        var k: nat :| PrecedesAt(a[1..], b[1..], k);
        assert a[..k + 1] == [a[0]] + a[1..][..k] && b[..k + 1] == [b[0]] + b[1..][..k];
        assert PrecedesAt(a, b, k + 1);
      }
      forall k: nat | PrecedesAt(a, b, k) ensures Precedes(a[1..], b[1..]) {
        assert a[1..][..k - 1] == a[..k][1..] && b[1..][..k - 1] == b[..k][1..];
        assert PrecedesAt(a[1..], b[1..], k - 1);
      }
    }
  }

  /** An entry comes before another one exactly if it has the smaller number, or the same and the earlier name,
    or both the same and the earlier description. */
  lemma ComparesByNumber(a: Method, b: Method, before: bool)
    ensures Compare(a, b, before) < 0 <==>
      || a.sequence < b.sequence
      || (a.sequence == b.sequence && Precedes(a.fnName, b.fnName))
      || (a.sequence == b.sequence && a.fnName == b.fnName && Precedes(a.description, b.description))
  {
    StrCmpOpposite(a.fnName, b.fnName);
    StrCmpPrecedes(a.fnName, b.fnName);
    StrCmpOpposite(a.description, b.description);
    StrCmpPrecedes(a.description, b.description);
    forall k: nat | a.fnName == b.fnName ensures !PrecedesAt(a.fnName, b.fnName, k) {}
  }

  /** On entries with distinct sequence numbers, or else distinct names or descriptions, the comparator is a
    strict total order. */
  lemma ComparatorOrders(a: Method, b: Method, c: Method, x: bool, y: bool, z: bool)
    requires !SameKey(a, b) && !SameKey(b, c) && Compare(a, b, x) < 0 && Compare(b, c, y) < 0
    ensures !SameKey(a, c) && Compare(a, c, z) < 0
  {
    StrCmpOpposite(a.fnName, c.fnName);
    StrCmpOpposite(b.fnName, c.fnName);
    StrCmpOpposite(a.fnName, b.fnName);
    StrCmpOpposite(a.description, c.description);
    if StrCmp(a.fnName, b.fnName) <= 0 && StrCmp(b.fnName, c.fnName) <= 0 {
      StrCmpTransitive(a.fnName, b.fnName, c.fnName);
    }
    if StrCmp(a.description, b.description) <= 0 && StrCmp(b.description, c.description) <= 0 {
      StrCmpTransitive(a.description, b.description, c.description);
    }
  }

  // ---- sorting ----

  predicate Distinct(table: seq<Method>) {
    forall i, j :: 0 <= i < j < |table| ==> table[i].sequence != table[j].sequence
  }

  /** What `qsort` leaves: the same entries, none after one that compares greater. Of entries that are equal
    in what is compared, where the comparator contradicts itself, nothing is known but that they stay. */
  predicate Sorts(sorted: seq<Method>, table: seq<Method>) {
    && multiset(sorted) == multiset(table)
    && forall i, j :: 0 <= i < j < |sorted| && !SameKey(sorted[i], sorted[j]) ==> Compare(sorted[i], sorted[j], true) <= 0
  }

  /** Where `m` belongs in a sorted table. */
  function Insert(s: seq<Method>, m: Method): (r: seq<Method>)
    ensures multiset(r) == multiset(s) + multiset{m}
  {
    if s == [] then [m]
    else if !SameKey(m, s[0]) && Compare(m, s[0], true) > 0 then
      assert s == [s[0]] + s[1..];
      [s[0]] + Insert(s[1..], m)
    else [m] + s
  }

  predicate First(m: Method, s: seq<Method>) {
    forall k :: 0 <= k < |s| && !SameKey(m, s[k]) ==> Compare(m, s[k], true) <= 0
  }

  lemma SortedTail(s: seq<Method>)
    requires Sorts(s, s) && s != []
    ensures Sorts(s[1..], s[1..]) && First(s[0], s[1..])
  {
  }

  lemma SortedCons(m: Method, s: seq<Method>)
    requires Sorts(s, s) && First(m, s)
    ensures Sorts([m] + s, [m] + s)
  {
  }

  lemma {:induction false} InsertKeeps(s: seq<Method>, m: Method)
    requires Sorts(s, s)
    ensures Sorts(Insert(s, m), Insert(s, m))
  {
    if s != [] && !SameKey(m, s[0]) && Compare(m, s[0], true) > 0 {
      SortedTail(s);
      InsertKeeps(s[1..], m);
      ComparatorConsistent(m, s[0], true);
      var rest := Insert(s[1..], m);
      forall k | 0 <= k < |rest| && !SameKey(s[0], rest[k]) ensures Compare(s[0], rest[k], true) <= 0 {
        InsertHolds(s[1..], m, k);
      }
      SortedCons(s[0], rest);
    } else {
      forall k | 0 <= k < |s| && !SameKey(m, s[k]) ensures Compare(m, s[k], true) <= 0 {
        SmallestFirst(s, m, k);
      }
      SortedCons(m, s);
    }
  }

  lemma InsertHolds(s: seq<Method>, m: Method, k: nat)
    requires k < |Insert(s, m)|
    ensures Insert(s, m)[k] == m || Insert(s, m)[k] in s
  {
    assert Insert(s, m)[k] in multiset(Insert(s, m));
  }

  lemma SmallestFirst(s: seq<Method>, m: Method, k: nat)
    requires Sorts(s, s) && k < |s| && (SameKey(m, s[0]) || Compare(m, s[0], true) <= 0) && !SameKey(m, s[k])
    ensures Compare(m, s[k], true) <= 0
  {
    if k > 0 && !SameKey(s[0], s[k]) {
      ComparatorConsistent(s[0], s[k], true);
      if !SameKey(m, s[0]) {
        ComparatorConsistent(m, s[0], true);
        ComparatorOrders(m, s[0], s[k], true, true, true);
      }
    }
  }

  /** Every table can be sorted, repeated entries or not. */
  lemma {:induction false} CanBeSorted(table: seq<Method>) returns (sorted: seq<Method>)
    ensures Sorts(sorted, table)
  {
    if table == [] {
      sorted := [];
    } else {
      var rest := CanBeSorted(table[1..]);
      InsertKeeps(rest, table[0]);
      sorted := Insert(rest, table[0]);
      assert table == [table[0]] + table[1..];
    }
  }

  predicate Ascending(s: seq<Method>) {
    forall i, j :: 0 <= i < j < |s| ==> s[i].sequence < s[j].sequence
  }

  lemma Multiplicity(s: seq<Method>, i: nat, j: nat)
    requires i < j < |s| && s[i] == s[j]
    ensures multiset(s)[s[i]] >= 2
  {
    assert s == s[..j] + [s[j]] + s[j + 1..];
    assert s[i] in s[..j];
    assert multiset(s) == multiset(s[..j]) + multiset([s[j]]) + multiset(s[j + 1..]);
  }

  lemma {:induction false} DistinctOnce(s: seq<Method>, m: Method)
    requires Distinct(s)
    ensures multiset(s)[m] <= 1
  {
    if s != [] {
      DistinctOnce(s[1..], m);
      assert s == [s[0]] + s[1..];
      forall j | 0 <= j < |s[1..]| ensures s[1..][j] != s[0] {
        assert s[1..][j] == s[j + 1];
      }
    }
  }

  /** With distinct sequence numbers the sorted table ascends. */
  lemma SortedAscends(sorted: seq<Method>, table: seq<Method>)
    requires Distinct(table) && Sorts(sorted, table)
    ensures Ascending(sorted)
  {
    forall i, j | 0 <= i < j < |sorted| ensures sorted[i].sequence < sorted[j].sequence {
      if sorted[i].sequence == sorted[j].sequence {
        assert sorted[i] in multiset(table) && sorted[j] in multiset(table);
        var a :| 0 <= a < |table| && table[a] == sorted[i];
        var b :| 0 <= b < |table| && table[b] == sorted[j];
        assert a == b;
        Multiplicity(sorted, i, j);
        DistinctOnce(table, sorted[i]);
      } else {
        assert !SameKey(sorted[i], sorted[j]) && Compare(sorted[i], sorted[j], true) <= 0;
      }
    }
  }

  lemma SameHead(s: seq<Method>, t: seq<Method>)
    requires Ascending(s) && Ascending(t) && multiset(s) == multiset(t) && s != [] && t != []
    ensures s[0] == t[0]
  {
    assert s[0] in multiset(t) && t[0] in multiset(s);
    var i :| 0 <= i < |t| && t[i] == s[0];
    var j :| 0 <= j < |s| && s[j] == t[0];
  }

  lemma WithoutHead(s: seq<Method>)
    requires s != []
    ensures multiset(s[1..]) == multiset(s) - multiset{s[0]}
  {
    assert s == [s[0]] + s[1..];
  }

  lemma {:induction false} AscendingUnique(s: seq<Method>, t: seq<Method>)
    requires Ascending(s) && Ascending(t) && multiset(s) == multiset(t)
    ensures s == t
  {
    assert |s| == |multiset(s)| == |multiset(t)| == |t|;
    if s != [] {
      SameHead(s, t);
      WithoutHead(s);
      WithoutHead(t);
      AscendingUnique(s[1..], t[1..]);
      assert s == [s[0]] + s[1..] && t == [t[0]] + t[1..];
    }
  }

  /** Whatever the order of linking, there is one sorted table. */
  lemma OneMenu(table: seq<Method>, sorted: seq<Method>, table': seq<Method>, sorted': seq<Method>)
    requires Distinct(table) && Sorts(sorted, table)
    requires multiset(table') == multiset(table) && Sorts(sorted', table')
    ensures sorted == sorted'
  {
    assert Sorts(sorted', table);
    SortedAscends(sorted, table);
    SortedAscends(sorted', table);
    AscendingUnique(sorted, sorted');
  }

  function Below(table: seq<Method>, q: int): set<Method> {
    set m | m in table && m.sequence < q
  }

  /** The n-th entry of the menu is the entry with n smaller sequence numbers in the table. */
  lemma NthSmallest(table: seq<Method>, sorted: seq<Method>, n: nat)
    requires Distinct(table) && Sorts(sorted, table) && n < |sorted|
    ensures sorted[n] in table && |Below(table, sorted[n].sequence)| == n
  {
    SortedAscends(sorted, table);
    assert forall m :: m in table <==> m in multiset(table);
    assert forall m :: m in sorted <==> m in multiset(sorted);
    assert Below(table, sorted[n].sequence) == Below(sorted, sorted[n].sequence);
    BelowCount(sorted, n);
  }

  lemma {:induction false} BelowCount(s: seq<Method>, n: nat)
    requires Ascending(s) && n < |s|
    ensures |Below(s, s[n].sequence)| == n
  {
    if n == 0 {
      assert Below(s, s[0].sequence) == {};
    } else {
      BelowCount(s, n - 1);
      assert Below(s, s[n].sequence) == Below(s, s[n - 1].sequence) + {s[n - 1]};
    }
  }

  /** Methods numbered upwards without gap, as the eight that are linked in are from 3 on, make a menu in the
    order of their numbers, however they are linked. */
  lemma MenuByNumber(linked: seq<Method>, q: int, table: seq<Method>, sorted: seq<Method>)
    requires forall i :: 0 <= i < |linked| ==> linked[i].sequence == i + q
    requires multiset(table) == multiset(linked) && Sorts(sorted, table)
    ensures sorted == linked
  {
    OneMenu(linked, linked, table, sorted);
  }

  // ---- numbers in the option ----

  predicate IsSpace(c: char) {
    c == ' ' || 9 <= c as int <= 13
  }

  predicate IsDigit(c: char) {
    '0' <= c <= '9'
  }

  /** Space, tab, newline, vertical tab, form feed and carriage return; and the ten digits. */
  lemma Characters(c: char)
    ensures IsSpace(c) <==> c in {' ', '\t', '\n', 11 as char, 12 as char, '\r'}
    ensures IsDigit(c) <==> c in "0123456789"
  {
    assert IsDigit(c) ==> "0123456789"[c as int - '0' as int] == c;
  }

  function SkipSpaces(s: string): string {
    if s != [] && IsSpace(s[0]) then SkipSpaces(s[1..]) else s
  }

  function DigitRun(s: string): (n: nat)
    ensures n <= |s|
  {
    if s != [] && IsDigit(s[0]) then 1 + DigitRun(s[1..]) else 0
  }

  /** `strtol(s, &rest, 10)`: without digits the value is 0 and the rest is all of `s`. */
  function StrToL(s: string): (int, string) {
    var t := SkipSpaces(s);
    var signed := t != [] && (t[0] == '-' || t[0] == '+');
    var u := if signed then t[1..] else t;
    var n := DigitRun(u);
    if n == 0 then (0, s)
    else (if signed && t[0] == '-' then -Whole(u[..n]) else Whole(u[..n]), u[n..])
  }

  /** A number as one writes it. */
  function Dec(n: nat): (s: string)
    ensures s != []
  {
    (if n < 10 then [] else Dec(n / 10)) + [Digit(n % 10)]
  }

  lemma {:induction false} DecIsDigits(n: nat)
    ensures Whole(Dec(n)) == n && forall i :: 0 <= i < |Dec(n)| ==> IsDigit(Dec(n)[i])
  {
    if n >= 10 {
      DecIsDigits(n / 10);
    }
    WholeGrows(if n < 10 then [] else Dec(n / 10), n % 10);
  }

  lemma {:induction false} RunOfDigits(s: string, rest: string)
    requires (forall i :: 0 <= i < |s| ==> IsDigit(s[i])) && (rest != [] ==> !IsDigit(rest[0]))
    ensures DigitRun(s + rest) == |s|
  {
    if s != [] {
      RunOfDigits(s[1..], rest);
      assert (s + rest)[1..] == s[1..] + rest;
    } else {
      assert s + rest == rest;
    }
  }

  lemma StrToLReads(n: nat, rest: string)
    requires rest != [] ==> !IsDigit(rest[0])
    ensures StrToL(Dec(n) + rest) == (n, rest) && Dec(n) + rest != rest
  {
    DecIsDigits(n);
    RunOfDigits(Dec(n), rest);
    var s := Dec(n) + rest;
    assert IsDigit(s[0]) && s[0] == Dec(n)[0];
    assert s[..|Dec(n)|] == Dec(n) && s[|Dec(n)|..] == rest;
  }

  // ---- the option ----

  /** The run ends; or ping and pong have their entries; or pong has none, since its index was never set. */
  datatype Outcome = Exit | Chosen(ping: Method, pong: Method) | NoPong

  /** What an option means for a menu; `pong` is the index that pong had before. */
  function Meaning(option: string, menu: seq<Method>, pong: int): Outcome {
    var (n, rest) := StrToL(option);
    if n < 0 || n >= |menu| || rest == option then Exit
    else if rest == [] then Chosen(menu[n], menu[n])
    else if rest[0] == ',' then
      var m := StrToL(rest[1..]).0;
      if m < 0 || m >= |menu| then Exit else Chosen(menu[n], menu[m])
    else if 0 <= pong < |menu| then Chosen(menu[n], menu[pong])
    else NoPong
  }

  class Spin {
    var info: seq<Method>
    var count: int
    var ping: int
    var pong: int
    var chosen: Outcome

    constructor ()
      ensures count == -1 && ping == -1 && pong == -1
    {
      info, count, ping, pong, chosen := [], -1, -1, -1, Exit;
    }

    /** `setup_memsync_info`; `sorted` is what `qsort` makes of the table. */
    method Setup(table: seq<Method>, sorted: seq<Method>)
      requires Sorts(sorted, table) && count == -1
      modifies this
      ensures count == |info| == |table| && info == sorted
      ensures ping == old(ping) && pong == old(pong) && chosen == old(chosen)
    {
      assert |sorted| == |multiset(sorted)| == |multiset(table)| == |table|;
      count := |table|;
      info := sorted;
    }

    /** `comm_spin_parse_options`; the menu is dropped again unless the run ends. */
    method ParseOptions(option: string, table: seq<Method>, sorted: seq<Method>) returns (exit: bool)
      requires Sorts(sorted, table) && count == -1
      modifies this
      ensures exit <==> Meaning(option, sorted, old(pong)).Exit?
      ensures !exit ==> chosen == Meaning(option, sorted, old(pong)) && count == -1
      ensures !exit && chosen.Chosen? ==>
        0 <= ping < |sorted| && 0 <= pong < |sorted| && chosen == Chosen(sorted[ping], sorted[pong])
    {
      Setup(table, sorted);
      var maxValue := count - 1;
      var (value, remainder) := StrToL(option);
      if value < 0 || value > maxValue || option == remainder {
        return true;
      }
      ping := value;
      if remainder == [] {
        pong := value;
      } else if remainder[0] == ',' {
        value := StrToL(remainder[1..]).0;
        if value < 0 || value > maxValue {
          return true;
        }
        pong := value;
      }
      chosen := if 0 <= pong < count then Chosen(info[ping], info[pong]) else NoPong;
      count := -1;
      return false;
    }
  }

  /** "n" picks the n-th entry for both, and "n,m" the n-th and the m-th; numbers beyond the menu end the run. */
  lemma NumbersPick(n: nat, m: nat, menu: seq<Method>, pong: int)
    ensures Meaning(Dec(n), menu, pong) == if n < |menu| then Chosen(menu[n], menu[n]) else Exit
    ensures Meaning(Dec(n) + "," + Dec(m), menu, pong)
         == if n < |menu| && m < |menu| then Chosen(menu[n], menu[m]) else Exit
  {
    StrToLReads(n, []);
    assert Dec(n) + [] == Dec(n);
    StrToLReads(m, []);
    assert Dec(m) + [] == Dec(m);
    var rest := "," + Dec(m);
    StrToLReads(n, rest);
    assert Dec(n) + "," + Dec(m) == Dec(n) + rest;
    assert rest[1..] == Dec(m);
  }

  // ---- the second number ----

  /** `t` begins with the number `v`, written with spaces and a sign if any, and `rest` follows it. */
  predicate NumberParts(t: string, spaces: string, sign: string, digits: string, rest: string, v: int) {
    && t == spaces + sign + digits + rest
    && (forall i :: 0 <= i < |spaces| ==> IsSpace(spaces[i])) && (sign == "" || sign == "-" || sign == "+")
    && digits != "" && (forall i :: 0 <= i < |digits| ==> IsDigit(digits[i]))
    && (rest != "" ==> !IsDigit(rest[0]))
    && v == if sign == "-" then -Whole(digits) else Whole(digits)
  }

  ghost predicate BeginsWith(t: string, v: int, rest: string) {
    exists spaces, sign, digits :: NumberParts(t, spaces, sign, digits, rest, v)
  }

  lemma {:induction false} SpacesSkipped(spaces: string, t: string)
    requires (forall i :: 0 <= i < |spaces| ==> IsSpace(spaces[i])) && (t != "" ==> !IsSpace(t[0]))
    ensures SkipSpaces(spaces + t) == t
  {
    if spaces != "" {
      SpacesSkipped(spaces[1..], t);
      assert (spaces + t)[1..] == spaces[1..] + t;
    } else {
      assert spaces + t == t;
    }
  }

  lemma {:induction false} SpacesSplit(s: string) returns (spaces: string)
    ensures s == spaces + SkipSpaces(s) && forall i :: 0 <= i < |spaces| ==> IsSpace(spaces[i])
  {
    if s != "" && IsSpace(s[0]) {
      var more := SpacesSplit(s[1..]);
      spaces := [s[0]] + more;
    } else {
      spaces := "";
    }
  }

  lemma {:induction false} RunSplits(s: string)
    ensures forall i :: 0 <= i < DigitRun(s) ==> IsDigit(s[i])
    ensures DigitRun(s) < |s| ==> !IsDigit(s[DigitRun(s)])
  {
    if s != "" && IsDigit(s[0]) {
      RunSplits(s[1..]);
    }
  }

  lemma FourParts(spaces: string, sign: string, digits: string, rest: string)
    ensures spaces + sign + digits + rest == spaces + (sign + (digits + rest))
  {
  }

  lemma DigitsCut(digits: string, rest: string)
    requires (rest != "" ==> !IsDigit(rest[0])) && forall i :: 0 <= i < |digits| ==> IsDigit(digits[i])
    ensures var w := digits + rest; DigitRun(w) == |digits| && w[..DigitRun(w)] == digits && w[DigitRun(w)..] == rest
  {
    RunOfDigits(digits, rest);
    assert (digits + rest)[..|digits|] == digits && (digits + rest)[|digits|..] == rest;
  }

  lemma SignAside(c: char, w: string, digits: string, rest: string)
    requires (c == '-' || c == '+') && digits != ""
    requires DigitRun(w) == |digits| && w[..|digits|] == digits && w[|digits|..] == rest
    ensures StrToL([c] + w) == (if c == '-' then -Whole(digits) else Whole(digits), rest)
  {
    var u := [c] + w;
    assert !IsSpace(u[0]) && u[1..] == w;
  }

  lemma OneSignReads(c: char, digits: string, rest: string)
    requires (c == '-' || c == '+') && (rest != "" ==> !IsDigit(rest[0]))
    requires digits != "" && forall i :: 0 <= i < |digits| ==> IsDigit(digits[i])
    ensures StrToL([c] + (digits + rest)) == (if c == '-' then -Whole(digits) else Whole(digits), rest)
  {
    DigitsCut(digits, rest);
    SignAside(c, digits + rest, digits, rest);
  }

  lemma PlainReads(digits: string, rest: string)
    requires rest != "" ==> !IsDigit(rest[0])
    requires digits != "" && forall i :: 0 <= i < |digits| ==> IsDigit(digits[i])
    ensures StrToL(digits + rest) == (Whole(digits), rest)
  {
    DigitsCut(digits, rest);
    assert (digits + rest)[0] == digits[0];
    NoSign(digits + rest);
  }

  lemma NoSign(w: string)
    requires w != "" && IsDigit(w[0])
    ensures StrToL(w) == (Whole(w[..DigitRun(w)]), w[DigitRun(w)..])
  {
  }

  lemma SignedReads(sign: string, digits: string, rest: string)
    requires (sign == "" || sign == "-" || sign == "+") && (rest != "" ==> !IsDigit(rest[0]))
    requires digits != "" && forall i :: 0 <= i < |digits| ==> IsDigit(digits[i])
    ensures StrToL(sign + (digits + rest)) == (if sign == "-" then -Whole(digits) else Whole(digits), rest)
  {
    if sign == "" {
      PlainReads(digits, rest);
      assert sign + (digits + rest) == digits + rest;
    } else {
      OneSignReads(sign[0], digits, rest);
      assert sign == [sign[0]];
    }
  }

  lemma {:induction false} SpacesIgnored(spaces: string, u: string)
    requires (forall i :: 0 <= i < |spaces| ==> IsSpace(spaces[i])) && u != "" && !IsSpace(u[0])
    ensures StrToL(spaces + u) == if StrToL(u).1 == u then (0, spaces + u) else StrToL(u)
  {
    SpacesSkipped(spaces, u);
    SpacesSkipped("", u);
    assert "" + u == u;
  }

  lemma PartsRead(t: string, spaces: string, sign: string, digits: string, rest: string, v: int)
    requires NumberParts(t, spaces, sign, digits, rest, v)
    ensures StrToL(t) == (v, rest) && t != rest
  {
    var u := sign + (digits + rest);
    FourParts(spaces, sign, digits, rest);
    assert u[0] == if sign == "" then digits[0] else sign[0];
    SignedReads(sign, digits, rest);
    assert |u| > |rest|;
    SpacesIgnored(spaces, u);
  }

  lemma PlainHas(u: string)
    requires u != "" && !IsSpace(u[0]) && u[0] != '-' && u[0] != '+' && StrToL(u).1 != u
    ensures DigitRun(u) > 0 && StrToL(u) == (Whole(u[..DigitRun(u)]), u[DigitRun(u)..])
  {
  }

  lemma SignHas(c: char, w: string)
    requires (c == '-' || c == '+') && StrToL([c] + w).1 != [c] + w
    ensures var n := DigitRun(w); n > 0 && StrToL([c] + w) == (if c == '-' then -Whole(w[..n]) else Whole(w[..n]), w[n..])
  {
    var u := [c] + w;
    assert !IsSpace(u[0]) && u[1..] == w;
  }

  lemma CutParts(sign: string, w: string, n: nat, v: int)
    requires (sign == "" || sign == "-" || sign == "+") && 0 < n == DigitRun(w)
    requires v == if sign == "-" then -Whole(w[..n]) else Whole(w[..n])
    ensures NumberParts(sign + w, "", sign, w[..n], w[n..], v)
  {
    RunSplits(w);
    FourParts("", sign, w[..n], w[n..]);
    assert w[..n] + w[n..] == w;
    assert "" + (sign + w) == sign + w;
  }

  lemma SignedHasParts(u: string) returns (sign: string, digits: string, rest: string)
    requires u != "" && !IsSpace(u[0]) && StrToL(u).1 != u
    ensures NumberParts(u, "", sign, digits, rest, StrToL(u).0) && rest == StrToL(u).1
  {
    var v, w := StrToL(u).0, u;
    if u[0] == '-' || u[0] == '+' {
      sign, w := [u[0]], u[1..];
      assert u == [u[0]] + w;
      SignHas(u[0], w);
    } else {
      sign := "";
      PlainHas(u);
      assert "" + w == u;
    }
    var n := DigitRun(w);
    digits, rest := w[..n], w[n..];
    CutParts(sign, w, n, v);
    assert sign + w == u;
  }

  lemma ReadHasParts(t: string)
    requires StrToL(t).1 != t
    ensures BeginsWith(t, StrToL(t).0, StrToL(t).1)
  {
    var spaces := SpacesSplit(t);
    var u := SkipSpaces(t);
    assert u != "";
    NoSpaceFirst(t);
    SpacesIgnored(spaces, u);
    var sign, digits, rest := SignedHasParts(u);
    FourParts("", sign, digits, rest);
    FourParts(spaces, sign, digits, rest);
    assert u == sign + (digits + rest);
    assert NumberParts(t, spaces, sign, digits, rest, StrToL(t).0);
  }

  lemma {:induction false} NoSpaceFirst(s: string)
    ensures SkipSpaces(s) != "" ==> !IsSpace(SkipSpaces(s)[0])
  {
    if s != "" && IsSpace(s[0]) {
      NoSpaceFirst(s[1..]);
    }
  }

  /** `strtol` finds a number exactly if the text begins with one, and then that one. */
  lemma StrToLExactly(t: string, v: int, rest: string)
    ensures BeginsWith(t, v, rest) <==> StrToL(t) == (v, rest) && rest != t
  {
    if BeginsWith(t, v, rest) {
      var spaces, sign, digits :| NumberParts(t, spaces, sign, digits, rest, v);
      PartsRead(t, spaces, sign, digits, rest, v);
    }
    if StrToL(t) == (v, rest) && rest != t {
      ReadHasParts(t);
    }
  }

  lemma AfterComma(n: nat, t: string, menu: seq<Method>, pong: int)
    requires n < |menu|
    ensures Meaning(Dec(n) + "," + t, menu, pong)
         == if 0 <= StrToL(t).0 < |menu| then Chosen(menu[n], menu[StrToL(t).0]) else Exit
  {
    var rest := "," + t;
    StrToLReads(n, rest);
    assert Dec(n) + "," + t == Dec(n) + rest;
    assert rest[1..] == t;
  }

  /** The option begins with the number of an entry. */
  ghost predicate Picks(option: string, menu: seq<Method>, n: nat, rest: string) {
    n < |menu| && BeginsWith(option, n, rest)
  }

  /** The text begins with a number that no entry has. */
  ghost predicate OutOfMenu(t: string, menu: seq<Method>) {
    exists v, rest :: BeginsWith(t, v, rest) && !(0 <= v < |menu|)
  }

  predicate BehindComma(rest: string) {
    rest != "" && rest[0] == ','
  }

  lemma OutOfMenuReads(t: string, menu: seq<Method>)
    requires menu != []
    ensures OutOfMenu(t, menu) <==> !(0 <= StrToL(t).0 < |menu|)
  {
    if StrToL(t).1 == t {
      NoNumber(t);
    } else {
      ReadHasParts(t);
    }
    forall v, rest | BeginsWith(t, v, rest) ensures StrToL(t) == (v, rest) {
      StrToLExactly(t, v, rest);
    }
  }

  /** What an option that picks an entry means: alone it is for both; a comma gives pong an entry of its own
    unless the number behind it is out of the menu; anything else leaves pong what it had. */
  lemma PickMeans(option: string, menu: seq<Method>, pong: int, n: nat, rest: string)
    requires Picks(option, menu, n, rest)
    ensures
      var r := Meaning(option, menu, pong);
      && (r.Exit? <==> BehindComma(rest) && OutOfMenu(rest[1..], menu))
      && (r.Chosen? ==> r.ping == menu[n])
      && (rest == "" ==> r == Chosen(menu[n], menu[n]))
      && (rest != "" && rest[0] != ',' ==> r == if 0 <= pong < |menu| then Chosen(menu[n], menu[pong]) else NoPong)
      && (BehindComma(rest) ==> !r.NoPong?)
  {
    StrToLExactly(option, n, rest);
    if BehindComma(rest) {
      OutOfMenuReads(rest[1..], menu);
    }
  }

  /** An option ends the run exactly if it does not begin with the number of an entry, because it begins with
    none, a negative one or one too large, or if the number behind its comma is out of the menu. */
  lemma EndsTheRun(option: string, menu: seq<Method>, pong: int)
    ensures Meaning(option, menu, pong).Exit? <==>
      !(exists n: nat, rest :: Picks(option, menu, n, rest) && !(BehindComma(rest) && OutOfMenu(rest[1..], menu)))
  {
    var (v, r) := StrToL(option);
    if 0 <= v < |menu| && r != option {
      ReadHasParts(option);
      assert Picks(option, menu, v, r);
      PickMeans(option, menu, pong, v, r);
    }
    forall n: nat, rest | Picks(option, menu, n, rest) ensures n == v && rest == r && r != option {
      StrToLExactly(option, n, rest);
    }
  }

  /** A negative number ends the run, whatever follows it. */
  lemma NegativeEndsTheRun(n: nat, rest: string, menu: seq<Method>, pong: int)
    requires n > 0 && (rest != "" ==> !IsDigit(rest[0]))
    ensures Meaning("-" + (Dec(n) + rest), menu, pong) == Exit
  {
    DecIsDigits(n);
    SignedReads("-", Dec(n), rest);
  }

  /** Pong's entry is one that stands behind the comma as a number. */
  ghost predicate Honoured(t: string, menu: seq<Method>, chosen: Method) {
    exists m: nat, rest :: m < |menu| && BeginsWith(t, m, rest) && chosen == menu[m]
  }

  /** What follows the comma is accepted exactly if the value that `strtol` takes from it is in the menu; and
    an accepted pong is one that the option numbers exactly if a number follows the comma, whatever follows
    the number. */
  lemma SecondNumber(n: nat, t: string, menu: seq<Method>, pong: int)
    requires n < |menu|
    ensures
      var c := Meaning(Dec(n) + "," + t, menu, pong);
      && (c.Chosen? <==> 0 <= StrToL(t).0 < |menu|) && !c.NoPong?
      && (c.Chosen? ==> c.ping == menu[n] && (Honoured(t, menu, c.pong) <==> StrToL(t).1 != t))
  {
    AfterComma(n, t, menu, pong);
    var (v, rest) := StrToL(t);
    if 0 <= v < |menu| {
      if rest != t {
        ReadHasParts(t);
        assert BeginsWith(t, v, rest) && menu[v] == menu[v];
      }
      if Honoured(t, menu, menu[v]) {
        var m: nat, r :| m < |menu| && BeginsWith(t, m, r) && menu[v] == menu[m];
        StrToLExactly(t, m, r);
      }
    }
  }

  /** Anything but a number behind the comma picks the first entry. */
  lemma SecondNumberUnchecked(n: nat, junk: string, menu: seq<Method>, pong: int)
    requires n < |menu| && StrToL(junk).1 == junk
    ensures Meaning(Dec(n) + "," + junk, menu, pong) == Chosen(menu[n], menu[0])
  {
    AfterComma(n, junk, menu, pong);
    NoNumber(junk);
  }

  lemma NoNumber(s: string)
    requires StrToL(s).1 == s
    ensures StrToL(s).0 == 0
  {
    var spaces := SpacesSplit(s);
  }

  /** "1,x" is accepted, and gives pong the first entry. */
  lemma JunkIsAccepted(menu: seq<Method>, pong: int)
    requires |menu| > 1
    ensures Meaning("1,x", menu, pong) == Chosen(menu[1], menu[0]) && !Honoured("x", menu, menu[0])
  {
    assert Dec(1) == "1";
    assert "1,x" == Dec(1) + "," + "x";
    assert StrToL("x") == (0, "x");
    SecondNumberUnchecked(1, "x", menu, pong);
    SecondNumber(1, "x", menu, pong);
  }

  /** All together: for tables with the same entries, linked in any order, the numbers n and m pick the
    entries with n and with m smaller sequence numbers. */
  lemma MenuIgnoresLinkOrder(table: seq<Method>, sorted: seq<Method>, table': seq<Method>, sorted': seq<Method>,
                             n: nat, m: nat, pong: int)
    requires Distinct(table) && Sorts(sorted, table)
    requires multiset(table') == multiset(table) && Sorts(sorted', table')
    requires n < |table| && m < |table|
    ensures
      var c := Meaning(Dec(n) + "," + Dec(m), sorted, pong);
      && c == Meaning(Dec(n) + "," + Dec(m), sorted', pong)
      && c.Chosen? && c.ping in table && c.pong in table
      && |Below(table, c.ping.sequence)| == n && |Below(table, c.pong.sequence)| == m
  {
    assert |sorted| == |multiset(sorted)| == |multiset(table)| == |table|;
    OneMenu(table, sorted, table', sorted');
    NumbersPick(n, m, sorted, pong);
    NthSmallest(table, sorted, n);
    NthSmallest(table, sorted, m);
  }
}
