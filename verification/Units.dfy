/** `subsec_string`: a time written with up to three digits, some decimals and a unit. Times are reals
  here; the text is read back by `Number` and `Unit`, which know nothing of how it was made. */
module Units {

  function Pow10(n: nat): (p: int)
    ensures p >= 1
  {
    if n == 0 then 1 else 10 * Pow10(n - 1)
  }

  /** The worth of the n-th decimal: 10^-n. */
  function Ulp(n: nat): (u: real)
    ensures 0.0 < u <= 1.0
  {
    if n == 0 then 1.0 else Ulp(n - 1) / 10.0
  }

  function Frac(x: real): (f: real)
    ensures 0.0 <= f < 1.0
  {
    x - (x.Floor as real)
  }

  // ---- rounding to a fixed point ----

  /** Rounding to the nearest integer, halves away from zero. */
  function Round(x: real): (r: int)
    ensures x >= 0.0 ==> x - 0.5 < r as real <= x + 0.5
    ensures x <= 0.0 ==> x - 0.5 <= r as real < x + 0.5
  {
    if x >= 0.0 then (x + 0.5).Floor else -((0.5 - x).Floor)
  }

  datatype FixedPoint = FixedPoint(i: nat, dec: nat)

  /** `f` in units of 1/mult, rounded. */
  function Fixed(mult: int, f: real): int {
    Round(f * (mult as real))
  }

  function Split(x: nat, m: int): (fp: FixedPoint)
    requires m >= 1
    ensures fp.i * m + fp.dec == x && fp.dec < m
  {
    assert x == m * (x / m) + x % m;
    FixedPoint(x / m, x % m)
  }

  function Parts(mult: int, f: real): (fp: FixedPoint)
    requires mult >= 1
    ensures fp.dec < mult
    ensures fp.i * mult + fp.dec == if Fixed(mult, f) < 0 then -Fixed(mult, f) else Fixed(mult, f)
  {
    var i := Fixed(mult, f);
    Split(if i < 0 then -i else i, mult)
  }

  /** `f_to_fp`: the magnitude of `f`, rounded to `prec` decimals, split into integer and decimals. */
  function FToFp(prec: nat, f: real): FixedPoint {
    Parts(Pow10(prec), f)
  }

  // ---- the text ----

  function Digit(n: nat): (c: char)
    requires n < 10
    ensures c != '.' && c != ' '
  {
    ('0' as int + n) as char
  }

  function Digits(hundreds: bool, tens: bool, h: nat, t: nat, u: nat): string
    requires h < 10 && t < 10 && u < 10
  {
    (if hundreds then [Digit(h)] else []) + (if tens then [Digit(t)] else []) + [Digit(u)]
  }

  /** The digits before the point: the hundreds if the rounded integer has them, the tens if the size does. */
  function IntDigits(size: real, i: nat): string {
    Digits(i >= 100, size >= 10.0, (i / 100) % 10, (i / 10) % 10, i % 10)
  }

  /** The digits behind the point, cut off one by one. */
  function FracDigits(x: real, n: nat): (s: string)
    requires 0.0 <= x < 1.0
    ensures |s| == n && '.' !in s && ' ' !in s
    decreases n
  {
    if n == 0 then []
    else [Digit((x * 10.0).Floor)] + FracDigits(Frac(x * 10.0), n - 1)
  }

  const UNITS := ["s", "ms", "us", "ns", "ps", "fs"]

  /** The scaling loop: a size below one goes to the next smaller unit; a size below every unit is zero. */
  function Scale(size: real, mult: nat): (r: (nat, real))
    requires mult <= |UNITS|
    ensures r.0 < |UNITS| && r.1 >= 0.0
    decreases |UNITS| - mult
  {
    if size < 1.0 && mult < |UNITS| then Scale(size * 1000.0, mult + 1)
    else if mult >= |UNITS| then (0, 0.0)
    else (mult, size)
  }

  function Scaled(size: real): (r: (nat, real))
    ensures r.0 < |UNITS| && r.1 >= 0.0
  {
    Scale(size, if size <= 0.0 then |UNITS| else 0)
  }

  function NumberText(size: real, decPts: nat): string {
    IntDigits(size, FToFp(decPts, size).i) + (if decPts > 0 then "." + FracDigits(Frac(size), decPts) else "")
  }

  /** The text for a size in a unit. */
  function Text(unit: nat, size: real, decPts: nat): string
    requires unit < |UNITS|
  {
    NumberText(size, decPts) + " " + UNITS[unit]
  }

  /** A size as the program computes it; the sign of an infinite one does not matter. */
  datatype Size = Finite(value: real) | Infinite

  /** The three bytes of the sign for infinity in UTF-8. */
  const INFINITY_SIGN: string := ['\U{E2}', '\U{88}', '\U{9E}']

  function TextOf(size: Size, decPts: nat): string {
    match size
    case Infinite => INFINITY_SIGN
    case Finite(v) => Text(Scaled(v).0, Scaled(v).1, decPts)
  }

  /** No text is longer than its decimals and seven characters; 24 decimals always fit the static buffer. */
  lemma TextFits(size: Size, decPts: nat)
    ensures |TextOf(size, decPts)| <= decPts + 7
  {
  }

  // ---- writing it into the buffer ----

  /** `buffer[p++] = c` */
  method Put(buffer: array<char>, p: nat, c: char) returns (next: nat)
    requires p < buffer.Length
    modifies buffer
    ensures next == p + 1 && buffer[..next] == old(buffer[..p]) + [c]
    ensures forall k :: next <= k < buffer.Length ==> buffer[k] == old(buffer[k])
  {
    buffer[p] := c;
    next := p + 1;
  }

  const LOCAL_SIZE := 32

  /** The text, terminated by NUL, at the start of the buffer given, or of the static one if none is; nothing
    behind it is touched. */
  method SubsecString(arg: array?<char>, local: array<char>, size: Size, decPts: nat)
    returns (buffer: array<char>, end: nat)
    requires local.Length == LOCAL_SIZE
    requires |TextOf(size, decPts)| < if arg != null then arg.Length else LOCAL_SIZE
    modifies if arg != null then {arg} else {local}
    ensures buffer == (if arg != null then arg else local) && end < buffer.Length
    ensures buffer[..end] == TextOf(size, decPts) && buffer[end] == '\0'
    ensures forall k :: end < k < buffer.Length ==> buffer[k] == old(buffer[k])
  {
    buffer := if arg != null then arg else local;
    if size.Infinite? {
      end := PutUnit(buffer, 0, INFINITY_SIGN);
      buffer[end] := '\0';
      return;
    }
    var mult, s := ScaleToUnit(size.value);
    end := PutText(buffer, s, decPts, UNITS[mult]);
  }

  /** The scaling loop. */
  method ScaleToUnit(size: real) returns (mult: nat, s: real)
    ensures (mult, s) == Scaled(size)
  {
    mult, s := 0, size;
    if s <= 0.0 {
      mult := |UNITS|;
    }
    while s < 1.0 && mult < |UNITS|
      invariant mult <= |UNITS|
      invariant Scale(s, mult) == Scaled(size)
      decreases |UNITS| - mult
    {
      mult := mult + 1;
      s := s * 1000.0;
    }
    if mult >= |UNITS| {
      s, mult := 0.0, 0;
    }
  }

  method PutText(buffer: array<char>, s: real, decPts: nat, unit: string) returns (end: nat)
    requires |NumberText(s, decPts)| + 1 + |unit| < buffer.Length
    modifies buffer
    ensures end < buffer.Length && buffer[..end] == NumberText(s, decPts) + " " + unit && buffer[end] == '\0'
    ensures forall k :: end < k < buffer.Length ==> buffer[k] == old(buffer[k])
  {
    var p := PutNumber(buffer, s, decPts);
    p := Put(buffer, p, ' ');
    end := PutUnit(buffer, p, unit);
    p := Put(buffer, end, '\0');
  }

  method PutNumber(buffer: array<char>, s: real, decPts: nat) returns (p: nat)
    requires |NumberText(s, decPts)| <= buffer.Length
    modifies buffer
    ensures p == |NumberText(s, decPts)| && buffer[..p] == NumberText(s, decPts)
    ensures forall k :: p <= k < buffer.Length ==> buffer[k] == old(buffer[k])
  {
    var i := FToFp(decPts, s).i;
    p := PutInteger(buffer, s, i);
    if decPts > 0 {
      p := Put(buffer, p, '.');
      ghost var head := buffer[..p];
      p := PutFraction(buffer, p, Frac(s), decPts);
      assert head + FracDigits(Frac(s), decPts) == IntDigits(s, i) + ("." + FracDigits(Frac(s), decPts));
    }
  }

  method PutInteger(buffer: array<char>, s: real, i: nat) returns (p: nat)
    requires |IntDigits(s, i)| <= buffer.Length
    modifies buffer
    ensures p == |IntDigits(s, i)| && buffer[..p] == IntDigits(s, i)
    ensures forall k :: p <= k < buffer.Length ==> buffer[k] == old(buffer[k])
  {
    p := 0;
    if i >= 100 {
      p := Put(buffer, p, Digit((i / 100) % 10));
    }
    if s >= 10.0 {
      p := Put(buffer, p, Digit((i / 10) % 10));
    }
    p := Put(buffer, p, Digit(i % 10));
  }

  method PutUnit(buffer: array<char>, start: nat, unit: string) returns (p: nat)
    requires start + |unit| <= buffer.Length
    modifies buffer
    ensures p == start + |unit| && buffer[..p] == old(buffer[..start]) + unit
    ensures forall k :: p <= k < buffer.Length ==> buffer[k] == old(buffer[k])
  {
    p := start;
    for k := 0 to |unit|
      invariant p == start + k
      invariant buffer[..p] == old(buffer[..start]) + unit[..k]
      invariant forall j :: p <= j < buffer.Length ==> buffer[j] == old(buffer[j])
    {
      p := Put(buffer, p, unit[k]);
    }
    assert unit[..|unit|] == unit;
  }

  /** The loop that cuts the decimals off. */
  method PutFraction(buffer: array<char>, start: nat, x: real, decPts: nat) returns (p: nat)
    requires start + decPts <= buffer.Length && 0.0 <= x < 1.0
    modifies buffer
    ensures p == start + decPts && buffer[..p] == old(buffer[..start]) + FracDigits(x, decPts)
    ensures forall k :: p <= k < buffer.Length ==> buffer[k] == old(buffer[k])
  {
    var s, left := x, decPts;
    p := start;
    while left > 0
      invariant 0 <= left <= decPts && 0.0 <= s < 1.0
      invariant p == start + decPts - left
      invariant buffer[..p] + FracDigits(s, left) == old(buffer[..start]) + FracDigits(x, decPts)
      invariant forall j :: p <= j < buffer.Length ==> buffer[j] == old(buffer[j])
    {
      ghost var before, behind := buffer[..p], FracDigits(Frac(s * 10.0), left - 1);
      assert FracDigits(s, left) == [Digit((s * 10.0).Floor)] + behind;
      s := s * 10.0;
      p := Put(buffer, p, Digit(s.Floor));
      s := s - (s.Floor as real);
      left := left - 1;
      assert (before + [buffer[p - 1]]) + behind == before + ([buffer[p - 1]] + behind);
    }
  }

  // ---- the unit ----

  /** `size` in units a thousand times smaller, m times over. */
  function InUnit(size: real, m: nat): real
    decreases m
  {
    if m == 0 then size else InUnit(size * 1000.0, m - 1)
  }

  /** The unit is the largest in which the size is at least one, and exactly the sizes below a femtosecond
    (the negative ones too) become zero seconds. */
  lemma UnitIsLargest(size: real)
    ensures size < 0.000000000000001 <==> Scaled(size) == (0, 0.0)
    ensures size >= 0.000000000000001 ==>
      var (m, x) := Scaled(size);
      m < |UNITS| && x == InUnit(size, m) >= 1.0 && (m > 0 ==> InUnit(size, m - 1) < 1.0)
  {
    if size > 0.0 {
      UnitFrom(size, 0);
      assert InUnit(size, 5) == size * 1000000000000000.0 by {
        assert InUnit(size, 5) == InUnit(size * 1000.0, 4) == InUnit(size * 1000000.0, 3)
            == InUnit(size * 1000000000.0, 2);
      }
    }
  }

  lemma {:induction false} InUnitGrows(size: real, m: nat)
    ensures InUnit(size, m + 1) == 1000.0 * InUnit(size, m)
    decreases m
  {
    if m > 0 {
      InUnitGrows(size * 1000.0, m - 1);
    }
  }

  lemma {:induction false} UnitFrom(size: real, mult: nat)
    requires size > 0.0 && mult < |UNITS|
    ensures InUnit(size, 5 - mult) < 1.0 <==> Scale(size, mult) == (0, 0.0)
    ensures InUnit(size, 5 - mult) >= 1.0 ==>
      var (m, x) := Scale(size, mult);
      mult <= m < |UNITS| && x == InUnit(size, m - mult) >= 1.0 && (m > mult ==> InUnit(size, m - mult - 1) < 1.0)
    decreases |UNITS| - mult
  {
    if size >= 1.0 {
      AtLeast(size, 5 - mult);
    } else if mult < 5 {
      UnitFrom(size * 1000.0, mult + 1);
    }
  }

  lemma {:induction false} AtLeast(size: real, m: nat)
    requires size >= 1.0
    ensures InUnit(size, m) >= 1.0
    decreases m
  {
    if m > 0 {
      AtLeast(size * 1000.0, m - 1);
    }
  }

  // ---- reading it back ----

  /** What stands before the first `c`, or everything. */
  function Until(s: string, c: char): string {
    if s == [] || s[0] == c then [] else [s[0]] + Until(s[1..], c)
  }

  /** What stands behind the first `c`, or nothing. */
  function After(s: string, c: char): string {
    if s == [] then [] else if s[0] == c then s[1..] else After(s[1..], c)
  }

  function DigitValue(c: char): int {
    c as int - '0' as int
  }

  function Whole(s: string): int {
    if s == [] then 0 else 10 * Whole(s[..|s| - 1]) + DigitValue(s[|s| - 1])
  }

  function Decimals(s: string): real {
    if s == [] then 0.0 else (DigitValue(s[0]) as real + Decimals(s[1..])) / 10.0
  }

  /** The number a text shows. */
  function Number(text: string): real {
    var number := Until(text, ' ');
    Whole(Until(number, '.')) as real + Decimals(After(number, '.'))
  }

  function Unit(text: string): string {
    After(text, ' ')
  }

  lemma {:induction false} SplitAt(s: string, c: char, t: string)
    requires c !in s
    ensures Until(s + [c] + t, c) == s && After(s + [c] + t, c) == t
    ensures Until(s, c) == s && After(s, c) == []
  {
    if s != [] {
      SplitAt(s[1..], c, t);
      assert (s + [c] + t)[1..] == s[1..] + [c] + t;
    }
  }

  lemma NumberReads(digits: string, decimals: string)
    requires '.' !in digits
    ensures Until(digits + "." + decimals, '.') == digits && After(digits + "." + decimals, '.') == decimals
    ensures Until(digits, '.') == digits && After(digits, '.') == []
  {
    SplitAt(digits, '.', decimals);
  }

  lemma NumberParts(number: string, digits: string, decimals: string)
    requires '.' !in digits
    requires number == if decimals != [] then digits + "." + decimals else digits
    ensures Until(number, '.') == digits && After(number, '.') == decimals
  {
    NumberReads(digits, decimals);
  }

  lemma NoSpace(size: real, decPts: nat)
    ensures ' ' !in NumberText(size, decPts) && '.' !in IntDigits(size, FToFp(decPts, size).i)
  {
  }

  lemma NumberIs(size: real, decPts: nat)
    ensures var (digits, decimals) := (IntDigits(size, FToFp(decPts, size).i), FracDigits(Frac(size), decPts));
            && (decPts > 0 <==> decimals != [])
            && NumberText(size, decPts) == if decimals != [] then digits + "." + decimals else digits
  {
    var (digits, decimals) := (IntDigits(size, FToFp(decPts, size).i), FracDigits(Frac(size), decPts));
    if decPts > 0 {
      assert NumberText(size, decPts) == digits + ("." + decimals) == digits + "." + decimals;
    } else {
      assert digits + "" == digits;
    }
  }

  /** The parts of a text: a point stands between digits and decimals if there are any, and a space before
    the unit. */
  lemma TextParts(unit: nat, x: real, decPts: nat)
    requires unit < |UNITS|
    ensures
      var t := Text(unit, x, decPts);
      var digits, decimals := Until(Until(t, ' '), '.'), After(Until(t, ' '), '.');
      && digits == IntDigits(x, FToFp(decPts, x).i) && decimals == FracDigits(Frac(x), decPts)
      && Unit(t) == UNITS[unit]
      && t == digits + (if decPts > 0 then "." + decimals else "") + " " + Unit(t)
  {
    NoSpace(x, decPts);
    NumberIs(x, decPts);
    SplitAt(NumberText(x, decPts), ' ', UNITS[unit]);
    NumberParts(NumberText(x, decPts), IntDigits(x, FToFp(decPts, x).i), FracDigits(Frac(x), decPts));
  }

  /** The parts of the text, read back. */
  lemma Reads(unit: nat, size: real, decPts: nat)
    requires unit < |UNITS|
    ensures Unit(Text(unit, size, decPts)) == UNITS[unit]
    ensures Number(Text(unit, size, decPts))
         == Whole(IntDigits(size, FToFp(decPts, size).i)) as real + Decimals(FracDigits(Frac(size), decPts))
  {
    TextParts(unit, size, decPts);
  }

  /** The decimals are cut off, not rounded. */
  lemma {:induction false} DecimalsTruncate(x: real, n: nat)
    requires 0.0 <= x < 1.0
    ensures 0.0 <= Decimals(FracDigits(x, n)) <= x < Decimals(FracDigits(x, n)) + Ulp(n)
    decreases n
  {
    if n > 0 {
      DecimalsTruncate(Frac(x * 10.0), n - 1);
      assert FracDigits(x, n)[1..] == FracDigits(Frac(x * 10.0), n - 1);
    }
  }

  lemma {:induction false} UlpIsInverse(n: nat)
    ensures Ulp(n) * (Pow10(n) as real) == 1.0
  {
    if n > 0 {
      UlpIsInverse(n - 1);
      var u, p := Ulp(n - 1), Pow10(n - 1) as real;
      assert (u / 10.0) * (10.0 * p) == u * p;
      assert Pow10(n) as real == 10.0 * p;
    }
  }

  /** The integer part is rounded at the last decimal: it carries when the fraction is within half of
    the last decimal from one. */
  lemma IntegerCarries(x: real, decPts: nat)
    requires x >= 0.0
    ensures FToFp(decPts, x).i == if Frac(x) + 0.5 * Ulp(decPts) < 1.0 then x.Floor else x.Floor + 1
  {
    UlpIsInverse(decPts);
    PartsCarry(x, Pow10(decPts), Ulp(decPts));
  }

  lemma PartsCarry(x: real, p: int, u: real)
    requires x >= 0.0 && p >= 1 && 0.0 < u && u * (p as real) == 1.0
    ensures Parts(p, x).i == if Frac(x) + 0.5 * u < 1.0 then x.Floor else x.Floor + 1
  {
    var fp := Parts(p, x);
    var part := FixedParts(x, p, u);
    Quotient(fp.i, fp.dec, p, x.Floor, part, Fixed(p, x));
  }

  /** What the fraction contributes to the fixed-point number. */
  lemma FixedParts(x: real, p: int, u: real) returns (part: real)
    requires x >= 0.0 && p >= 1 && 0.0 < u && u * (p as real) == 1.0
    ensures 0.0 <= part < p as real
    ensures Frac(x) + 0.5 * u < 1.0 <==> part + 0.5 < p as real
    ensures Fixed(p, x) == ((x.Floor * p) as real + part + 0.5).Floor >= 0
  {
    part := Frac(x) * (p as real);
    Product(x, x.Floor, Frac(x), p);
    Expand(Frac(x), u, p as real);
  }

  lemma Product(x: real, n: int, f: real, p: int)
    requires x == n as real + f && f >= 0.0 && p >= 1 && n >= 0
    ensures x * (p as real) == (n * p) as real + f * (p as real)
    ensures n * p >= 0 && f * (p as real) >= 0.0
  {
    assert x * (p as real) == (n as real) * (p as real) + f * (p as real);
    Cast(n, p);
    assert n * p >= 0;
  }

  lemma {:induction false} Cast(n: nat, p: int)
    ensures (n as real) * (p as real) == (n * p) as real
  {
    if n > 0 {
      Cast(n - 1, p);
      assert n * p == (n - 1) * p + p;
      assert (n as real) * (p as real) == ((n - 1) as real) * (p as real) + p as real;
    }
  }

  /** Multiplying `f + 0.5 u < 1` by `m`, when `u m == 1`. */
  lemma Expand(f: real, u: real, m: real)
    requires m >= 1.0 && u * m == 1.0 && 0.0 <= f < 1.0
    ensures f + 0.5 * u < 1.0 <==> f * m + 0.5 < m
    ensures f * m < m
  {
    var rest := 1.0 - f - 0.5 * u;
    assert rest * m == m - f * m - 0.5 * (u * m);
    Sign(rest, m);
    assert (1.0 - f) * m == m - f * m;
    Sign(1.0 - f, m);
  }

  lemma Sign(a: real, m: real)
    requires m > 0.0
    ensures a * m > 0.0 <==> a > 0.0
  {
  }

  lemma Quotient(q: nat, dec: nat, p: int, n: nat, fm: real, r: int)
    requires p >= 1 && dec < p && q * p + dec == r
    requires r == ((n * p) as real + fm + 0.5).Floor && 0.0 <= fm < p as real
    ensures q == if fm + 0.5 < p as real then n else n + 1
  {
    assert (n + 1) * p == n * p + p;
    Between(q, dec, p, if fm + 0.5 < p as real then n else n + 1);
  }

  lemma Between(q: nat, dec: nat, p: int, n: nat)
    requires p >= 1 && dec < p && n * p <= q * p + dec < n * p + p
    ensures q == n
  {
    if q > n {
      Spaced(n, q, p);
    } else if q < n {
      Spaced(q, n, p);
    }
  }

  lemma Spaced(a: int, b: int, p: int)
    requires a < b && p >= 1
    ensures b * p >= a * p + p
  {
    var d := b - a - 1;
    assert b * p == a * p + p + d * p;
    assert d * p >= 0;
  }

  lemma WholeGrows(s: string, n: nat)
    requires n < 10
    ensures Whole(s + [Digit(n)]) == 10 * Whole(s) + n
  {
    assert (s + [Digit(n)])[..|s|] == s;
  }

  lemma DigitsWhole(hundreds: bool, tens: bool, h: nat, t: nat, u: nat)
    requires h < 10 && t < 10 && u < 10 && (hundreds ==> tens)
    ensures Whole(Digits(hundreds, tens, h, t, u))
         == (if hundreds then 100 * h else 0) + (if tens then 10 * t else 0) + u
  {
    var hs := if hundreds then [Digit(h)] else [];
    WholeGrows([], h);
    WholeGrows(hs, t);
    WholeGrows(if tens then hs + [Digit(t)] else hs, u);
    assert [] + [Digit(h)] == [Digit(h)];
    assert hs + [] == hs;
  }

  lemma DigitsRead(x: real, i: nat)
    requires x >= 0.0 && (i == x.Floor || i == x.Floor + 1)
    ensures Whole(IntDigits(x, i)) == if x >= 10.0 then i % 1000 else i % 10
  {
    DigitsWhole(i >= 100, x >= 10.0, (i / 100) % 10, (i / 10) % 10, i % 10);
    ThreeDigits(i);
  }

  lemma ThreeDigits(i: nat)
    ensures i % 1000 == 100 * ((i / 100) % 10) + 10 * ((i / 10) % 10) + i % 10
    ensures i < 100 ==> (i / 100) % 10 == 0
  {
    TwoSteps(i);
    var r := i / 100;
    var rest := 100 * (r % 10) + 10 * ((i / 10) % 10) + i % 10;
    assert i == 1000 * (r / 10) + rest && 0 <= rest < 1000;
  }

  lemma TwoSteps(i: nat)
    ensures i == 100 * (i / 100) + 10 * ((i / 10) % 10) + i % 10
  {
    var q := i / 10;
    var rest := 10 * (q % 10) + i % 10;
    assert i == 100 * (q / 10) + rest && 0 <= rest < 100;
  }

  /** The digits show the integer part exactly when it has at most three digits and did not carry. */
  lemma IntegerShown(x: real, i: nat)
    requires x >= 0.0 && (i == x.Floor || i == x.Floor + 1)
    ensures Whole(IntDigits(x, i)) == x.Floor <==> i == x.Floor && x < 1000.0
  {
    DigitsRead(x, i);
  }

  /** The printed number is the scaled size cut off at the last decimal exactly when the size has at most
    three digits and its fraction stays half of the last decimal below one. */
  lemma PrintedNumber(unit: nat, x: real, decPts: nat)
    requires unit < |UNITS| && x >= 0.0
    ensures
      var v := Number(Text(unit, x, decPts));
      v <= x < v + Ulp(decPts) <==> x < 1000.0 && Frac(x) + 0.5 * Ulp(decPts) < 1.0
  {
    Reads(unit, x, decPts);
    DecimalsTruncate(Frac(x), decPts);
    IntegerCarries(x, decPts);
    IntegerShown(x, FToFp(decPts, x).i);
  }

  // ---- what a text says ----

  /** What a unit is worth in seconds; nothing if it is none. */
  function Worth(unit: string): real {
    if unit == "s" then 1.0
    else if unit == "ms" then 0.001
    else if unit == "us" then 0.000001
    else if unit == "ns" then 0.000000001
    else if unit == "ps" then 0.000000000001
    else if unit == "fs" then 0.000000000000001
    else 0.0
  }

  lemma Regroup(x: real, w: real)
    ensures (1000.0 * x) * w == x * (1000.0 * w)
  {
  }

  /** Scaling to a unit divides by its worth, and each unit is worth a thousand of the next one. */
  lemma UnitsAreWorth(size: real, m: nat)
    requires m < |UNITS|
    ensures Worth(UNITS[m]) > 0.0 && InUnit(size, m) * Worth(UNITS[m]) == size
    ensures m > 0 ==> Worth(UNITS[m - 1]) == 1000.0 * Worth(UNITS[m])
  {
    if m > 0 {
      UnitsAreWorth(size, m - 1);
      InUnitGrows(size, m - 1);
      Regroup(InUnit(size, m - 1), Worth(UNITS[m]));
    }
  }

  lemma Times(a: real, b: real, w: real)
    requires w > 0.0
    ensures a * w <= b * w <==> a <= b
    ensures a * w < b * w <==> a < b
  {
    assert (b - a) * w == b * w - a * w;
    Sign(b - a, w);
    Sign(a - b, w);
    assert (a - b) * w == a * w - b * w;
  }

  /** No larger unit is worth so little. */
  lemma {:induction false} LargerUnits(m: nat, k: nat)
    requires k <= m < |UNITS|
    ensures Worth(UNITS[m]) <= Worth(UNITS[k])
    ensures k < m ==> Worth(UNITS[m - 1]) <= Worth(UNITS[k])
    decreases m
  {
    if k < m {
      UnitsAreWorth(1.0, m);
      LargerUnits(m - 1, k);
    }
  }

  /** A unit has a worth exactly if it is one of the six. */
  lemma SixUnits(unit: string)
    ensures Worth(unit) > 0.0 <==> exists k :: 0 <= k < |UNITS| && UNITS[k] == unit
  {
    if Worth(unit) > 0.0 {
      assert UNITS[0] == unit || UNITS[1] == unit || UNITS[2] == unit || UNITS[3] == unit || UNITS[4] == unit
          || UNITS[5] == unit;
    }
  }

  lemma Divided(x: real, w: real, size: real)
    requires w > 0.0 && x * w == size
    ensures size / w == x
  {
  }

  lemma ScaledWorth(size: real, unit: string) returns (w: real)
    requires 0.000000000000001 <= size && Scaled(size).0 < |UNITS| && unit == UNITS[Scaled(size).0]
    ensures w == Worth(unit) > 0.0 && Scaled(size).1 * w == size
  {
    UnitIsLargest(size);
    UnitsAreWorth(size, Scaled(size).0);
    w := Worth(unit);
  }

  lemma NamedUnit(size: real, decPts: nat)
    requires 0.000000000000001 <= size
    ensures Scaled(size).0 < |UNITS| && Unit(TextOf(Finite(size), decPts)) == UNITS[Scaled(size).0]
    ensures Scaled(size).1 >= 1.0
  {
    UnitIsLargest(size);
    Reads(Scaled(size).0, Scaled(size).1, decPts);
  }

  /** What the text of a size names, and the size in that unit. */
  lemma NamesUnit(size: real, decPts: nat) returns (m: nat, x: real, w: real)
    requires 0.000000000000001 <= size
    ensures (m, x) == Scaled(size) && m < |UNITS| && Unit(TextOf(Finite(size), decPts)) == UNITS[m]
    ensures w == Worth(Unit(TextOf(Finite(size), decPts))) > 0.0 && x * w == size && x >= 1.0
  {
    m, x := Scaled(size).0, Scaled(size).1;
    NamedUnit(size, decPts);
    w := ScaledWorth(size, Unit(TextOf(Finite(size), decPts)));
  }

  lemma ThousandSeconds(size: real)
    requires 0.000000000000001 <= size
    ensures Scaled(size).1 >= 1000.0 <==> size >= 1000.0
  {
    var (m, x) := Scaled(size);
    UnitIsLargest(size);
    if m > 0 {
      InUnitGrows(size, m - 1);
      AtLeastIfSo(size, m - 1);
    }
  }

  /** The unit shown is the one that is worth most among those that are not worth more than the size. */
  lemma ShowsLargestUnit(size: real, decPts: nat, unit: string)
    requires 0.000000000000001 <= size
    ensures var w := Worth(Unit(TextOf(Finite(size), decPts)));
            0.0 < w <= size && (0.0 < Worth(unit) <= size ==> Worth(unit) <= w)
  {
    var m, x, w := NamesUnit(size, decPts);
    Times(1.0, x, w);
    if 0.0 < Worth(unit) <= size {
      SixUnits(unit);
      var k :| 0 <= k < |UNITS| && UNITS[k] == unit;
      NoneInBetween(size, m, k);
    }
  }

  lemma NoneInBetween(size: real, m: nat, k: nat)
    requires 0.000000000000001 <= size && m == Scaled(size).0 < |UNITS| && k < |UNITS| && Worth(UNITS[k]) <= size
    ensures Worth(UNITS[k]) <= Worth(UNITS[m])
  {
    UnitIsLargest(size);
    if k < m {
      LargerUnits(m, k);
      UnitsAreWorth(size, m - 1);
    } else {
      LargerUnits(k, m);
    }
  }

  lemma ShownInUnit(v: real, u: real, x: real, w: real, size: real)
    requires w > 0.0 && x * w == size
    ensures v * w <= size < (v + u) * w <==> v <= x < v + u
  {
    Times(v, x, w);
    Times(x, v + u, w);
  }

  /** The text of any size from a femtosecond on, read back: its number times the worth of its unit is the
    size cut off at the last decimal, exactly if the size is below a thousand seconds and its fraction in
    that unit does not carry. */
  lemma SubsecStringShows(size: real, decPts: nat)
    requires 0.000000000000001 <= size
    ensures
      var t := TextOf(Finite(size), decPts);
      var w := Worth(Unit(t));
      && w > 0.0
      && (Number(t) * w <= size < (Number(t) + Ulp(decPts)) * w
          <==> size < 1000.0 && Frac(size / w) + 0.5 * Ulp(decPts) < 1.0)
  {
    var m, x, w := NamesUnit(size, decPts);
    Divided(x, w, size);
    ThousandSeconds(size);
    PrintedNumber(m, x, decPts);
    ShownInUnit(Number(TextOf(Finite(size), decPts)), Ulp(decPts), x, w, size);
  }

  lemma {:induction false} AtLeastIfSo(size: real, m: nat)
    requires InUnit(size, m) < 1.0
    ensures size < 1.0
  {
    if size >= 1.0 {
      AtLeast(size, m);
    }
  }

  lemma DigitCount(x: real, i: nat)
    requires x >= 0.0 && (i == x.Floor || i == x.Floor + 1)
    ensures |IntDigits(x, i)| == if i >= 100 then 3 else if x >= 10.0 then 2 else 1
  {
  }

  /** Digit by digit: the integer part has as many digits as it needs after rounding, except that the size
    alone decides about the tens, and shows its last three or its last one; the decimals are as many as
    asked for, and cut off. */
  lemma DigitsShown(size: real, decPts: nat)
    requires 0.000000000000001 <= size
    ensures
      var t := TextOf(Finite(size), decPts);
      && Worth(Unit(t)) > 0.0
      && var x := size / Worth(Unit(t));
         var i := if Frac(x) + 0.5 * Ulp(decPts) < 1.0 then x.Floor else x.Floor + 1;
         var digits, decimals := Until(Until(t, ' '), '.'), After(Until(t, ' '), '.');
         && |digits| == (if i >= 100 then 3 else if x >= 10.0 then 2 else 1)
         && Whole(digits) == (if x >= 10.0 then i % 1000 else i % 10)
         && |decimals| == decPts && Decimals(decimals) <= Frac(x) < Decimals(decimals) + Ulp(decPts)
         && t == digits + (if decPts > 0 then "." + decimals else "") + " " + Unit(t)
  {
    var m, x, w := NamesUnit(size, decPts);
    Divided(x, w, size);
    TextParts(m, x, decPts);
    IntegerCarries(x, decPts);
    DigitsRead(x, FToFp(decPts, x).i);
    DigitCount(x, FToFp(decPts, x).i);
    DecimalsTruncate(Frac(x), decPts);
  }

  lemma DigitsAreDecimal(n: nat)
    requires n < 10
    ensures Digit(n) == "0123456789"[n]
  {
  }

  /** Whatever is below a femtosecond, and whatever is negative, is shown as 0 s. */
  lemma SmallIsZero(size: real, decPts: nat)
    requires size < 0.000000000000001
    ensures var t := TextOf(Finite(size), decPts); Number(t) == 0.0 && Unit(t) == "s"
  {
    UnitIsLargest(size);
    Reads(0, 0.0, decPts);
    IntegerCarries(0.0, decPts);
    DecimalsTruncate(0.0, decPts);
    HalfUlp(decPts);
    DigitsRead(0.0, 0);
  }

  lemma HalfUlp(n: nat)
    ensures 0.5 * Ulp(n) < 1.0
  {
  }

  function Zeros(n: nat): string {
    if n == 0 then [] else "0" + Zeros(n - 1)
  }

  /** The worth of the last decimal is that of a 1 in its place. */
  lemma {:induction false} LastDecimal(n: nat)
    ensures Decimals(Zeros(n) + "1") == Ulp(n + 1)
  {
    if n > 0 {
      LastDecimal(n - 1);
      assert (Zeros(n) + "1")[1..] == Zeros(n - 1) + "1";
    } else {
      assert Zeros(0) + "1" == "1";
      assert Decimals("1") == 0.1;
    }
  }

  /** The sign for infinity is the one character U+221E, by the three-byte form of UTF-8 (RFC 3629, section 3). */
  lemma InfinityIsOneCharacter()
    ensures |INFINITY_SIGN| == 3
    ensures (INFINITY_SIGN[0] as int - 0xE0) * 0x1000 + (INFINITY_SIGN[1] as int - 0x80) * 0x40
            + (INFINITY_SIGN[2] as int - 0x80) == 0x221E
  {
  }

  /** 5 ms with one decimal. */
  lemma FiveMilliseconds()
    ensures TextOf(Finite(0.005), 1) == "5.0 ms"
  {
    assert Scale(0.005, 0) == Scale(5.0, 1) == (1, 5.0);
    assert Pow10(1) == 10 * Pow10(0);
    assert Fixed(10, 5.0) == 50;
    assert FToFp(1, 5.0).i == 5;
    assert FracDigits(0.0, 1) == [Digit(0)] + FracDigits(0.0, 0);
  }

  /** Without decimals there is no point. */
  lemma SevenSeconds()
    ensures TextOf(Finite(7.0), 0) == "7 s"
  {
    assert Fixed(1, 7.0) == 7;
    assert FToFp(0, 7.0).i == 7;
  }

  /** A carry: 9.96 s with one decimal is shown as 0.9 s. */
  lemma CarryLosesTheTens()
    ensures TextOf(Finite(9.96), 1) == "0.9 s"
  {
    assert Pow10(1) == 10 * Pow10(0);
    assert Fixed(10, 9.96) == 100;
    IntegerCarries(9.96, 1);
    assert Ulp(1) == Ulp(0) / 10.0;
    assert FToFp(1, 9.96).i == 10;
    assert FracDigits(0.96, 1) == [Digit(9)] + FracDigits(Frac(9.6), 0);
    assert Frac(9.96) == 0.96;
  }
}
