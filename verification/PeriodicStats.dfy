/** The statistics of an interval: what an alarm gathers, what it keeps for the next one, and why the
  intervals of a run add up. */
module PeriodicStats {
  import opened Options

  const WORD_RANGE := 0x1_0000_0000_0000_0000
  const MICROS := 1_000_000
  const NANOS := 1_000_000_000

  // ---- elapsed times ----

  /** Seconds and a fraction in units of which `unit` make a second. */
  datatype Time = Time(sec: int, frac: int)

  function Units(unit: int, t: Time): int {
    t.sec * unit + t.frac
  }

  predicate Normal(unit: int, t: Time) {
    0 <= t.frac < unit
  }

  /** `elapsed_time_timeval` (microseconds) and `elapsed_time` (nanoseconds). */
  function Elapsed(unit: int, start: Time, stop: Time): (r: Time)
    requires unit > 0
    ensures Units(unit, r) == Units(unit, stop) - Units(unit, start)
    ensures Normal(unit, start) && Normal(unit, stop) ==> Normal(unit, r)
  {
    if stop.frac - start.frac < 0 then Time(stop.sec - start.sec - 1, unit + stop.frac - start.frac)
    else Time(stop.sec - start.sec, stop.frac - start.frac)
  }

  /** A normalised time is determined by its value, so the elapsed time is the only one possible. */
  lemma ElapsedIsTheOne(unit: int, start: Time, stop: Time, t: Time)
    requires (unit == MICROS || unit == NANOS) && Normal(unit, start) && Normal(unit, stop)
    ensures t == Elapsed(unit, start, stop) <==>
            Normal(unit, t) && Units(unit, t) == Units(unit, stop) - Units(unit, start)
  {
    var r := Elapsed(unit, start, stop);
    if Normal(unit, t) && Units(unit, t) == Units(unit, r) {
      if unit == MICROS {
        assert t.sec * MICROS + t.frac == r.sec * MICROS + r.frac;
      } else {
        assert t.sec * NANOS + t.frac == r.sec * NANOS + r.frac;
      }
    }
  }

  // ---- copying ----

  /** `bytecopy` copies from the last element down to the first. */
  method ByteCopy(dest: array<int>, src: array<int>, count: nat)
    requires count <= dest.Length && count <= src.Length && dest != src
    modifies dest
    ensures dest[..count] == src[..count]
    ensures dest[count..] == old(dest[count..])
  {
    var left := count;
    while left > 0
      invariant 0 <= left <= count
      invariant forall k :: left <= k < count ==> dest[k] == src[k]
      invariant forall k :: 0 <= k < left || count <= k < dest.Length ==> dest[k] == old(dest[k])
    {
      left := left - 1;
      dest[left] := src[left];
    }
  }

  // ---- resource usage ----

  datatype Usage = Usage(utime: Time, stime: Time, nvcsw: int, nivcsw: int)

  const USAGE_WORDS := 6

  function Decode(words: seq<int>): Usage
    requires |words| == USAGE_WORDS
  {
    Usage(Time(words[0], words[1]), Time(words[2], words[3]), words[4], words[5])
  }

  function UsageSince(last: Usage, now: Usage): Usage {
    Usage(Elapsed(MICROS, last.utime, now.utime), Elapsed(MICROS, last.stime, now.stime),
          now.nvcsw - last.nvcsw, now.nivcsw - last.nivcsw)
  }

  function User(u: Usage): int { Units(MICROS, u.utime) }
  function System(u: Usage): int { Units(MICROS, u.stime) }
  function Voluntary(u: Usage): int { u.nvcsw }
  function Involuntary(u: Usage): int { u.nivcsw }
  function Switches(u: Usage): int { u.nvcsw + u.nivcsw }

  /** What one alarm reports. */
  datatype Interval = Interval(currentCount: nat, currentTime: real, runTime: real,
                               intervalTime: real, intervalCount: nat, ping: Usage, pong: Usage,
                               pingSwitches: int, pongSwitches: int, iterationTime: Option<real>)

  /** What is kept from one alarm to the next. */
  datatype Stored = Stored(count: nat, time: real, ping: Usage, pong: Usage)

  /** What an alarm finds. */
  datatype Sample = Sample(count: nat, time: real, ping: Usage, pong: Usage, waiting: bool, stop: bool)

  /** The difference of two 64-bit counters. */
  function CountSince(last: nat, now: nat): nat {
    (now - last) % WORD_RANGE
  }

  /** The time of one count; without a count the division has no result. */
  function PerCount(time: real, count: nat): (t: Option<real>)
    ensures match t case None => count == 0 case Some(each) => count > 0 && each * (count as real) == time
  {
    if count == 0 then None else Some(time / (count as real))
  }

  function Gathered(start: real, last: Stored, s: Sample): Interval {
    Interval(s.count, s.time, s.time - start, s.time - last.time, CountSince(last.count, s.count),
             UsageSince(last.ping, s.ping), UsageSince(last.pong, s.pong),
             Switches(UsageSince(last.ping, s.ping)), Switches(UsageSince(last.pong, s.pong)),
             PerCount(s.time - last.time, CountSince(last.count, s.count)))
  }

  /** An alarm that finds the run stopping, or a request outstanding, reports and stores nothing. */
  predicate Reports(s: Sample) {
    !s.waiting && !s.stop
  }

  function Kept(s: Sample): Stored {
    Stored(s.count, s.time, s.ping, s.pong)
  }

  /** What happens before an alarm, and what its two waits report. */
  datatype Alarm = Alarm(count: nat, waiting: bool, stop: bool, time: real,
                         wait0: Option<seq<int>>, wait1: Option<seq<int>>)

  predicate Proper(a: Alarm) {
    && a.count < WORD_RANGE
    && (a.wait0.Some? ==> |a.wait0.value| == USAGE_WORDS) && (a.wait1.Some? ==> |a.wait1.value| == USAGE_WORDS)
  }

  function UsageNow(a: Alarm, second: bool, before: seq<int>): (now: seq<int>)
    requires Proper(a) && |before| == USAGE_WORDS
    ensures |now| == USAGE_WORDS
  {
    var wait := if second then a.wait1 else a.wait0;
    if wait.Some? && !a.waiting then wait.value else before
  }

  /** The usage of a child after the alarms: of the last wait that reported one. */
  function UsageAfter(first: seq<int>, second: bool, alarms: seq<Alarm>): (u: seq<int>)
    requires |first| == USAGE_WORDS && forall k :: 0 <= k < |alarms| ==> Proper(alarms[k])
    ensures |u| == USAGE_WORDS
  {
    if alarms == [] then first
    else
      assert Proper(alarms[|alarms| - 1]);
      UsageNow(alarms[|alarms| - 1], second, UsageAfter(first, second, alarms[..|alarms| - 1]))
  }

  function SampleOf(a: Alarm, usage0: seq<int>, usage1: seq<int>): Sample
    requires |usage0| == |usage1| == USAGE_WORDS
  {
    Sample(a.count, a.time, Decode(usage0), Decode(usage1), a.waiting, a.stop)
  }

  /** The samples that the alarms take. */
  function SamplesOf(usage0: seq<int>, usage1: seq<int>, alarms: seq<Alarm>): (ss: seq<Sample>)
    requires |usage0| == |usage1| == USAGE_WORDS && forall k :: 0 <= k < |alarms| ==> Proper(alarms[k])
    ensures |ss| == |alarms|
    ensures forall k :: 0 <= k < |ss| ==> Counter(ss[k].count)
  {
    if alarms == [] then []
    else
      var a := alarms[|alarms| - 1];
      SamplesOf(usage0, usage1, alarms[..|alarms| - 1])
      + [SampleOf(a, UsageAfter(usage0, false, alarms), UsageAfter(usage1, true, alarms))]
  }

  class RunData {
    var pingCount: nat
    var lastPingCount: nat
    var startTime: real
    var lastStatsTime: real
    var requestInProgress: bool
    var stop: bool
    var headersCount: nat
    const headersFrequency: nat
    const usage0: array<int>
    const usage1: array<int>
    const lastUsage0: array<int>
    const lastUsage1: array<int>

    ghost predicate Valid()
      reads this
    {
      && usage0.Length == usage1.Length == lastUsage0.Length == lastUsage1.Length == USAGE_WORDS
      && usage0 != usage1 && usage0 != lastUsage0 && usage0 != lastUsage1
      && usage1 != lastUsage0 && usage1 != lastUsage1 && lastUsage0 != lastUsage1
      && pingCount < WORD_RANGE && lastPingCount < WORD_RANGE && headersFrequency > 0
    }

    ghost function Last(): Stored
      reads this, lastUsage0, lastUsage1
      requires Valid()
    {
      Stored(lastPingCount, lastStatsTime, Decode(lastUsage0[..]), Decode(lastUsage1[..]))
    }

    /** The sample an alarm takes at time `now` if the waits report no news. */
    ghost function Here(now: real): Sample
      reads this, usage0, usage1
      requires Valid()
    {
      Sample(pingCount, now, Decode(usage0[..]), Decode(usage1[..]), requestInProgress, stop)
    }

    /** A run starts from a zeroed structure. */
    constructor (start: real, headersFrequency: nat)
      requires headersFrequency > 0
      ensures Valid() && fresh(usage0) && fresh(usage1) && fresh(lastUsage0) && fresh(lastUsage1)
      ensures var none := Usage(Time(0, 0), Time(0, 0), 0, 0); Last() == Stored(0, start, none, none)
      ensures startTime == start && pingCount == 0 && !stop && !requestInProgress
    {
      pingCount, lastPingCount := 0, 0;
      startTime, lastStatsTime := start, start;
      requestInProgress, stop, headersCount := false, false, 0;
      this.headersFrequency := headersFrequency;
      usage0 := new int[USAGE_WORDS](_ => 0);
      usage1 := new int[USAGE_WORDS](_ => 0);
      lastUsage0 := new int[USAGE_WORDS](_ => 0);
      lastUsage1 := new int[USAGE_WORDS](_ => 0);
    }

    /** The waits for the two children fill in their usage only if they report one. */
    method GatherPeriodicStats(now: real, wait0: Option<seq<int>>, wait1: Option<seq<int>>) returns (i: Interval)
      requires Valid()
      requires (wait0.Some? ==> |wait0.value| == USAGE_WORDS) && (wait1.Some? ==> |wait1.value| == USAGE_WORDS)
      modifies usage0, usage1
      ensures i == Gathered(startTime, Last(), Here(now))
      ensures Tells(i, startTime, Last(), Here(now))
      ensures usage0[..] == if wait0.Some? then wait0.value else old(usage0[..])
      ensures usage1[..] == if wait1.Some? then wait1.value else old(usage1[..])
    {
      var (currentCount, currentTime) := (pingCount, now);
      if wait0.Some? {
        forall k | 0 <= k < USAGE_WORDS { usage0[k] := wait0.value[k]; }
      }
      if wait1.Some? {
        forall k | 0 <= k < USAGE_WORDS { usage1[k] := wait1.value[k]; }
      }
      var runTime := currentTime - startTime;
      var intervalTime := currentTime - lastStatsTime;
      var intervalCount := (currentCount - lastPingCount) % WORD_RANGE;
      var (now0, now1) := (Decode(usage0[..]), Decode(usage1[..]));
      var (last0, last1) := (Decode(lastUsage0[..]), Decode(lastUsage1[..]));
      var (nvcsw0, nivcsw0) := (now0.nvcsw - last0.nvcsw, now0.nivcsw - last0.nivcsw);
      var (nvcsw1, nivcsw1) := (now1.nvcsw - last1.nvcsw, now1.nivcsw - last1.nivcsw);
      var (utime0, stime0) := (Elapsed(MICROS, last0.utime, now0.utime), Elapsed(MICROS, last0.stime, now0.stime));
      var (utime1, stime1) := (Elapsed(MICROS, last1.utime, now1.utime), Elapsed(MICROS, last1.stime, now1.stime));
      var (csw0, csw1) := (nvcsw0 + nivcsw0, nvcsw1 + nivcsw1);
      i := Interval(currentCount, currentTime, runTime, intervalTime, intervalCount,
                    Usage(utime0, stime0, nvcsw0, nivcsw0), Usage(utime1, stime1, nvcsw1, nivcsw1),
                    csw0, csw1, PerCount(intervalTime, intervalCount));
      GatheredTells(startTime, Last(), Here(now));
    }

    method StoreLastStats(i: Interval)
      requires Valid() && i.currentCount < WORD_RANGE
      modifies `lastPingCount, `lastStatsTime, lastUsage0, lastUsage1
      ensures Valid()
      ensures Last() == Stored(i.currentCount, i.currentTime, Decode(usage0[..]), Decode(usage1[..]))
    {
      ByteCopy(lastUsage0, usage0, USAGE_WORDS);
      ByteCopy(lastUsage1, usage1, USAGE_WORDS);
      lastPingCount := i.currentCount;
      lastStatsTime := i.currentTime;
      assert lastUsage0[..] == lastUsage0[..USAGE_WORDS] == usage0[..USAGE_WORDS] == usage0[..];
      assert lastUsage1[..] == lastUsage1[..USAGE_WORDS] == usage1[..USAGE_WORDS] == usage1[..];
    }

    /** One alarm: it reports the interval since the last stored alarm and stores its own sample, or
      leaves what is stored alone. */
    method ShowPeriodicStats(now: real, wait0: Option<seq<int>>, wait1: Option<seq<int>>) returns (shown: Option<Interval>)
      requires Valid()
      requires (wait0.Some? ==> |wait0.value| == USAGE_WORDS) && (wait1.Some? ==> |wait1.value| == USAGE_WORDS)
      modifies this, usage0, usage1, lastUsage0, lastUsage1
      ensures Valid()
      ensures pingCount == old(pingCount) && startTime == old(startTime) && stop == old(stop)
      ensures requestInProgress == old(requestInProgress)
      ensures usage0[..] == if wait0.Some? && !requestInProgress then wait0.value else old(usage0[..])
      ensures usage1[..] == if wait1.Some? && !requestInProgress then wait1.value else old(usage1[..])
      ensures shown.Some? <==> !requestInProgress && !stop
      ensures headersCount == old(headersCount) + if shown.Some? then 1 else 0
      ensures var s := Here(now);
              && shown == (if Reports(s) then Some(Gathered(startTime, old(Last()), s)) else None)
              && Last() == (if Reports(s) then Kept(s) else old(Last()))
    {
      if requestInProgress {
        return None;
      }
      var i := GatherPeriodicStats(now, wait0, wait1);
      if stop {
        return None;
      }
      headersCount := headersCount + 1;
      StoreLastStats(i);
      shown := Some(i);
    }

    /** One alarm, before which others set the counter, the request and the stop flag. */
    method TakeAlarm(a: Alarm) returns (shown: Option<Interval>)
      requires Valid() && Proper(a)
      modifies this, usage0, usage1, lastUsage0, lastUsage1
      ensures Valid() && startTime == old(startTime)
      ensures shown.Some? <==> !a.waiting && !a.stop
      ensures usage0[..] == UsageNow(a, false, old(usage0[..])) && usage1[..] == UsageNow(a, true, old(usage1[..]))
      ensures var s := SampleOf(a, usage0[..], usage1[..]);
              && shown == (if Reports(s) then Some(Gathered(startTime, old(Last()), s)) else None)
              && Last() == (if Reports(s) then Kept(s) else old(Last()))
    {
      pingCount, requestInProgress, stop := a.count, a.waiting, a.stop;
      shown := ShowPeriodicStats(a.time, a.wait0, a.wait1);
    }

    /** A run of alarms: the intervals shown and what is stored are those of the samples, so the counts add
      up modulo 2^64 and the times exactly. */
    method Alarms(alarms: seq<Alarm>) returns (shown: seq<Interval>)
      requires Valid() && forall k :: 0 <= k < |alarms| ==> Proper(alarms[k])
      modifies this, usage0, usage1, lastUsage0, lastUsage1
      ensures Valid() && startTime == old(startTime)
      ensures var samples := SamplesOf(old(usage0[..]), old(usage1[..]), alarms);
              shown == Intervals(startTime, old(Last()), samples) && Last() == LastOf(old(Last()), samples)
      ensures old(lastPingCount) == 0 ==> SumCounts(shown) % WORD_RANGE == lastPingCount
      ensures SumTimes(shown) == lastStatsTime - old(lastStatsTime)
    {
      shown := [];
      ghost var (first, u0, u1) := (Last(), usage0[..], usage1[..]);
      assert alarms[..0] == [];
      for k := 0 to |alarms|
        invariant Valid() && startTime == old(startTime)
        invariant usage0[..] == UsageAfter(u0, false, alarms[..k]) && usage1[..] == UsageAfter(u1, true, alarms[..k])
        invariant shown == Intervals(startTime, first, SamplesOf(u0, u1, alarms[..k]))
        invariant Last() == LastOf(first, SamplesOf(u0, u1, alarms[..k]))
      {
        var i := TakeAlarm(alarms[k]);
        AlarmMore(u0, u1, alarms, k);
        OneAlarm(startTime, first, SamplesOf(u0, u1, alarms[..k]), SampleOf(alarms[k], usage0[..], usage1[..]));
        if i.Some? {
          shown := shown + [i.value];
        }
      }
      assert alarms[..|alarms|] == alarms;
      AlarmsConserve(startTime, first, SamplesOf(u0, u1, alarms));
    }
  }

  // ---- a run of alarms ----

  /** What is stored after the alarms. */
  function LastOf(first: Stored, samples: seq<Sample>): Stored {
    if samples == [] then first
    else
      var s := samples[|samples| - 1];
      if Reports(s) then Kept(s) else LastOf(first, samples[..|samples| - 1])
  }

  /** The intervals reported by the alarms. */
  function Intervals(start: real, first: Stored, samples: seq<Sample>): seq<Interval> {
    if samples == [] then []
    else
      var (before, s) := (samples[..|samples| - 1], samples[|samples| - 1]);
      Intervals(start, first, before) + if Reports(s) then [Gathered(start, LastOf(first, before), s)] else []
  }

  function SumCounts(xs: seq<Interval>): nat {
    if xs == [] then 0 else SumCounts(xs[..|xs| - 1]) + xs[|xs| - 1].intervalCount
  }

  function SumTimes(xs: seq<Interval>): real {
    if xs == [] then 0.0 else SumTimes(xs[..|xs| - 1]) + xs[|xs| - 1].intervalTime
  }

  /** The sum of one figure of one child's usage. */
  function SumUsage(figure: Usage -> int, ofPing: bool, xs: seq<Interval>): int {
    if xs == [] then 0
    else
      var i := xs[|xs| - 1];
      SumUsage(figure, ofPing, xs[..|xs| - 1]) + figure(if ofPing then i.ping else i.pong)
  }

  /** How often the counter was found lower than at the last stored alarm. */
  function Descents(first: Stored, samples: seq<Sample>): nat {
    if samples == [] then 0
    else
      var (before, s) := (samples[..|samples| - 1], samples[|samples| - 1]);
      Descents(first, before) + if Reports(s) && s.count < LastOf(first, before).count then 1 else 0
  }

  /** The intervals before the last alarm, and the one it adds. */
  lemma LastInterval(start: real, first: Stored, samples: seq<Sample>)
    requires samples != []
    ensures var (before, s) := (samples[..|samples| - 1], samples[|samples| - 1]);
            var (xs, xs') := (Intervals(start, first, before), Intervals(start, first, samples));
            if Reports(s) then xs' != [] && xs'[..|xs'| - 1] == xs && xs'[|xs'| - 1] == Gathered(start, LastOf(first, before), s)
            else xs' == xs
  {
  }

  /** One more sample. */
  lemma OneAlarm(start: real, first: Stored, samples: seq<Sample>, s: Sample)
    ensures LastOf(first, samples + [s]) == if Reports(s) then Kept(s) else LastOf(first, samples)
    ensures Intervals(start, first, samples + [s])
         == Intervals(start, first, samples) + if Reports(s) then [Gathered(start, LastOf(first, samples), s)] else []
  {
    assert (samples + [s])[..|samples|] == samples;
  }

  lemma AlarmMore(u0: seq<int>, u1: seq<int>, alarms: seq<Alarm>, k: nat)
    requires |u0| == |u1| == USAGE_WORDS && k < |alarms| && forall j :: 0 <= j < |alarms| ==> Proper(alarms[j])
    ensures UsageAfter(u0, false, alarms[..k + 1]) == UsageNow(alarms[k], false, UsageAfter(u0, false, alarms[..k]))
    ensures UsageAfter(u1, true, alarms[..k + 1]) == UsageNow(alarms[k], true, UsageAfter(u1, true, alarms[..k]))
    ensures SamplesOf(u0, u1, alarms[..k + 1]) == SamplesOf(u0, u1, alarms[..k])
         + [SampleOf(alarms[k], UsageAfter(u0, false, alarms[..k + 1]), UsageAfter(u1, true, alarms[..k + 1]))]
  {
    assert alarms[..k + 1][..k] == alarms[..k] && alarms[..k + 1][k] == alarms[k];
  }

  predicate Counter(n: nat) { n < WORD_RANGE }

  predicate Counters(first: Stored, samples: seq<Sample>) {
    Counter(first.count) && forall k :: 0 <= k < |samples| ==> Counter(samples[k].count)
  }

  lemma CountSinceIs(last: nat, now: nat)
    requires Counter(last) && Counter(now)
    ensures CountSince(last, now) == now - last + if now < last then WORD_RANGE else 0
  {
  }

  lemma {:induction false} LastIsCounter(first: Stored, samples: seq<Sample>)
    requires Counters(first, samples)
    ensures Counter(LastOf(first, samples).count)
  {
    if samples != [] {
      assert forall k :: 0 <= k < |samples| - 1 ==> samples[..|samples| - 1][k] == samples[k];
      LastIsCounter(first, samples[..|samples| - 1]);
    }
  }

  /** The interval counts add up to the counter's change, plus its range for every time it was found
    to have fallen. */
  lemma {:induction false} CountsAddUp(start: real, first: Stored, samples: seq<Sample>)
    requires Counters(first, samples)
    ensures SumCounts(Intervals(start, first, samples))
            == LastOf(first, samples).count - first.count + WORD_RANGE * Descents(first, samples)
  {
    if samples != [] {
      var (before, s) := (samples[..|samples| - 1], samples[|samples| - 1]);
      CountsAddUp(start, first, before);
      LastIsCounter(first, before);
      LastInterval(start, first, samples);
      if Reports(s) {
        CountSinceIs(LastOf(first, before).count, s.count);
      }
    }
  }

  function Of(s: Stored, ofPing: bool): Usage { if ofPing then s.ping else s.pong }

  lemma {:induction false} FigureAddsUp(figure: Usage -> int, ofPing: bool, start: real, first: Stored, samples: seq<Sample>)
    requires forall a, b :: figure(UsageSince(a, b)) == figure(b) - figure(a)
    ensures SumUsage(figure, ofPing, Intervals(start, first, samples))
            == figure(Of(LastOf(first, samples), ofPing)) - figure(Of(first, ofPing))
  {
    if samples != [] {
      var before := samples[..|samples| - 1];
      FigureAddsUp(figure, ofPing, start, first, before);
      LastInterval(start, first, samples);
    }
  }

  // ---- main results ----

  /** Over any run of alarms the reported counts add up to the last stored counter modulo 2^64, and
    exactly if and only if the counter was never found lower than at the alarm before. */
  lemma CountsAreConserved(start: real, first: Stored, samples: seq<Sample>)
    requires first.count == 0 && Counters(first, samples)
    ensures var total := SumCounts(Intervals(start, first, samples));
            && total % 0x1_0000_0000_0000_0000 == LastOf(first, samples).count
            && (total == LastOf(first, samples).count <==> Descents(first, samples) == 0)
  {
    CountsAddUp(start, first, samples);
    LastIsCounter(first, samples);
  }

  lemma AlarmsConserve(start: real, first: Stored, samples: seq<Sample>)
    requires Counters(first, samples)
    ensures first.count == 0 ==>
      SumCounts(Intervals(start, first, samples)) % WORD_RANGE == LastOf(first, samples).count
    ensures SumTimes(Intervals(start, first, samples)) == LastOf(first, samples).time - first.time
  {
    if first.count == 0 {
      CountsAreConserved(start, first, samples);
    }
    TimesAreConserved(start, first, samples);
  }

  lemma OneDescent(first: Stored, samples: seq<Sample>, s: Sample)
    ensures Descents(first, samples + [s])
         == Descents(first, samples) + if Reports(s) && s.count < LastOf(first, samples).count then 1 else 0
  {
    assert (samples + [s])[..|samples|] == samples;
  }

  lemma LastOfTwo(first: Stored, one: Sample, two: Sample)
    requires Reports(one) && Reports(two) && first.count <= one.count
    ensures LastOf(first, [one] + [two]) == Kept(two)
    ensures Descents(first, [one] + [two]) == if two.count < one.count then 1 else 0
  {
    assert [] + [one] == [one];
    OneDescent(first, [], one);
    OneDescent(first, [one], two);
  }

  /** An alarm that finds the counter lower than the alarm before, as it can in race2, adds a whole range to
    the counts reported: 5 and then 3 make 3 and 2^64. */
  lemma FallenCounts(start: real, first: Stored, one: Sample, two: Sample)
    requires first.count == 0 && one.count == 5 && two.count == 3 && Reports(one) && Reports(two)
    ensures SumCounts(Intervals(start, first, [one] + [two])) == 3 + 0x1_0000_0000_0000_0000
  {
    LastOfTwo(first, one, two);
    CountsAddUp(start, first, [one] + [two]);
  }

  /** A counter with a single writer never falls, so its intervals add up exactly. */
  lemma {:induction false} SingleWriter(first: Stored, samples: seq<Sample>)
    requires forall k :: 0 <= k < |samples| ==> first.count <= samples[k].count
    requires forall j, k :: 0 <= j < k < |samples| ==> samples[j].count <= samples[k].count
    ensures Descents(first, samples) == 0
    ensures LastOf(first, samples).count <= if samples == [] then first.count else samples[|samples| - 1].count
  {
    if samples != [] {
      SingleWriter(first, samples[..|samples| - 1]);
    }
  }

  /** The reported times and the five usage figures of either child add up to the last stored sample
    minus the first, alarms that store nothing included. */
  lemma UsageIsConserved(start: real, first: Stored, samples: seq<Sample>, ofPing: bool)
    ensures var xs := Intervals(start, first, samples);
            var (old', new') := (Of(first, ofPing), Of(LastOf(first, samples), ofPing));
            && SumUsage(User, ofPing, xs) == User(new') - User(old')
            && SumUsage(System, ofPing, xs) == System(new') - System(old')
            && SumUsage(Voluntary, ofPing, xs) == Voluntary(new') - Voluntary(old')
            && SumUsage(Involuntary, ofPing, xs) == Involuntary(new') - Involuntary(old')
            && SumUsage(Switches, ofPing, xs) == Switches(new') - Switches(old')
  {
    FigureAddsUp(User, ofPing, start, first, samples);
    FigureAddsUp(System, ofPing, start, first, samples);
    FigureAddsUp(Voluntary, ofPing, start, first, samples);
    FigureAddsUp(Involuntary, ofPing, start, first, samples);
    FigureAddsUp(Switches, ofPing, start, first, samples);
  }

  lemma {:induction false} TimesAreConserved(start: real, first: Stored, samples: seq<Sample>)
    ensures SumTimes(Intervals(start, first, samples)) == LastOf(first, samples).time - first.time
  {
    if samples != [] {
      var before := samples[..|samples| - 1];
      TimesAreConserved(start, first, before);
      LastInterval(start, first, samples);
    }
  }

  predicate NormalUsage(u: Usage) {
    Normal(MICROS, u.utime) && Normal(MICROS, u.stime)
  }

  /** If the kernel reports normalised times, so does every interval. */
  lemma {:induction false} IntervalsAreNormal(start: real, first: Stored, samples: seq<Sample>)
    requires NormalUsage(first.ping) && NormalUsage(first.pong)
    requires forall k :: 0 <= k < |samples| ==> NormalUsage(samples[k].ping) && NormalUsage(samples[k].pong)
    ensures NormalUsage(LastOf(first, samples).ping) && NormalUsage(LastOf(first, samples).pong)
    ensures var xs := Intervals(start, first, samples);
            forall k :: 0 <= k < |xs| ==> NormalUsage(xs[k].ping) && NormalUsage(xs[k].pong)
  {
    if samples != [] {
      IntervalsAreNormal(start, first, samples[..|samples| - 1]);
      assert NormalUsage(samples[|samples| - 1].ping) && NormalUsage(samples[|samples| - 1].pong);
      LastInterval(start, first, samples);
      var (xs, xs') := (Intervals(start, first, samples[..|samples| - 1]), Intervals(start, first, samples));
      assert forall k :: 0 <= k < |xs| ==> xs'[k] == xs[k];
    }
  }

  // ---- the figures of every interval ----

  /** The samples of the alarms that find nothing outstanding and nobody stopping. */
  function Undisturbed(samples: seq<Sample>): seq<Sample> {
    if samples == [] then []
    else
      var s := samples[|samples| - 1];
      Undisturbed(samples[..|samples| - 1]) + if !s.waiting && !s.stop then [s] else []
  }

  /** What the k-th of them finds stored: the one before it, or what was there first. */
  function Before(first: Stored, samples: seq<Sample>, k: nat): (b: Stored)
    requires k <= |Undisturbed(samples)|
  {
    if k == 0 then first
    else
      var s := Undisturbed(samples)[k - 1];
      Stored(s.count, s.time, s.ping, s.pong)
  }

  /** What an interval says of a child is its growth; times are in microseconds. */
  predicate Grows(i: Usage, old': Usage, new': Usage) {
    && i.utime.sec * 1_000_000 + i.utime.frac
       == (new'.utime.sec - old'.utime.sec) * 1_000_000 + new'.utime.frac - old'.utime.frac
    && i.stime.sec * 1_000_000 + i.stime.frac
       == (new'.stime.sec - old'.stime.sec) * 1_000_000 + new'.stime.frac - old'.stime.frac
    && i.nvcsw == new'.nvcsw - old'.nvcsw && i.nivcsw == new'.nivcsw - old'.nivcsw
  }

  /** The context switches of both kinds between two usages. */
  predicate Switched(switches: int, old': Usage, new': Usage) {
    switches == new'.nvcsw + new'.nivcsw - old'.nvcsw - old'.nivcsw
  }

  /** Everything an interval says, by the sample it was taken from and what was stored before. */
  predicate Tells(i: Interval, start: real, b: Stored, s: Sample) {
    && i.currentCount == s.count && i.currentTime == s.time && i.runTime == s.time - start
    && i.intervalTime == s.time - b.time
    && i.intervalCount < 0x1_0000_0000_0000_0000 && (b.count + i.intervalCount - s.count) % 0x1_0000_0000_0000_0000 == 0
    && Grows(i.ping, b.ping, s.ping) && Grows(i.pong, b.pong, s.pong)
    && Switched(i.pingSwitches, b.ping, s.ping) && Switched(i.pongSwitches, b.pong, s.pong)
    && (i.iterationTime.Some? <==> i.intervalCount > 0)
    && (i.iterationTime.Some? ==> i.iterationTime.value * (i.intervalCount as real) == i.intervalTime)
  }

  lemma GatheredTells(start: real, b: Stored, s: Sample)
    ensures Tells(Gathered(start, b, s), start, b, s)
  {
    var i := Gathered(start, b, s);
    CountSinceCongruent(b.count, s.count);
    assert Grows(i.ping, b.ping, s.ping) && Grows(i.pong, b.pong, s.pong);
  }

  lemma CountSinceCongruent(last: nat, now: nat)
    ensures CountSince(last, now) < WORD_RANGE && (last + CountSince(last, now) - now) % WORD_RANGE == 0
  {
    var q := (now - last) / WORD_RANGE;
    assert now - last == WORD_RANGE * q + CountSince(last, now);
    Multiple(-q);
  }

  lemma Multiple(q: int)
    ensures (WORD_RANGE * q) % WORD_RANGE == 0
  {
  }

  /** An alarm that comes later changes nothing about the earlier ones. */
  lemma OneMoreSample(first: Stored, samples: seq<Sample>, k: nat)
    requires samples != [] && k <= |Undisturbed(samples[..|samples| - 1])|
    ensures var before := samples[..|samples| - 1];
            && k <= |Undisturbed(samples)| && Before(first, samples, k) == Before(first, before, k)
            && (k < |Undisturbed(before)| ==> Undisturbed(samples)[k] == Undisturbed(before)[k])
  {
  }

  predicate Told(xs: seq<Interval>, start: real, first: Stored, samples: seq<Sample>, k: nat)
    requires |xs| == |Undisturbed(samples)|
  {
    k < |xs| ==> Tells(xs[k], start, Before(first, samples, k), Undisturbed(samples)[k])
  }

  /** Every undisturbed alarm of a run makes one interval, in its place, which tells what that alarm found
    compared with the one before; the last of them is what is stored. */
  lemma {:induction false} EveryIntervalTells(start: real, first: Stored, samples: seq<Sample>, k: nat)
    ensures var xs := Intervals(start, first, samples);
            && |xs| == |Undisturbed(samples)| && Told(xs, start, first, samples, k)
            && LastOf(first, samples) == Before(first, samples, |xs|)
  {
    if samples != [] {
      var (before, s) := (samples[..|samples| - 1], samples[|samples| - 1]);
      EveryIntervalTells(start, first, before, k);
      LastInterval(start, first, samples);
      var xs := Intervals(start, first, before);
      OneMoreSample(first, samples, |xs|);
      if k < |xs| {
        OneMoreSample(first, samples, k);
        assert Intervals(start, first, samples)[k] == xs[k];
      } else {
        GatheredTells(start, LastOf(first, before), s);
      }
    }
  }

  /** The time that the counts of an interval account for, or its own if there are none. */
  function CountedTime(i: Interval): real {
    if i.iterationTime.Some? then i.iterationTime.value * (i.intervalCount as real) else i.intervalTime
  }

  function SumCounted(xs: seq<Interval>): real {
    if xs == [] then 0.0 else SumCounted(xs[..|xs| - 1]) + CountedTime(xs[|xs| - 1])
  }

  function SumSwitches(ofPing: bool, xs: seq<Interval>): int {
    if xs == [] then 0
    else
      var i := xs[|xs| - 1];
      SumSwitches(ofPing, xs[..|xs| - 1]) + if ofPing then i.pingSwitches else i.pongSwitches
  }

  lemma {:induction false} SumsUpTo(start: real, first: Stored, samples: seq<Sample>, k: nat)
    requires k <= |Intervals(start, first, samples)| == |Undisturbed(samples)|
    ensures var (xs, b) := (Intervals(start, first, samples)[..k], Before(first, samples, k));
            && SumTimes(xs) == SumCounted(xs) == b.time - first.time
            && Switched(SumSwitches(true, xs), first.ping, b.ping)
            && Switched(SumSwitches(false, xs), first.pong, b.pong)
    decreases k
  {
    if k > 0 {
      SumsUpTo(start, first, samples, k - 1);
      var xs := Intervals(start, first, samples);
      assert xs[..k][..k - 1] == xs[..k - 1] && xs[..k][k - 1] == xs[k - 1];
      EveryIntervalTells(start, first, samples, k - 1);
    }
  }

  /** The time of one count times the counts, summed over all intervals of a run, is the time between the first
    and the last stored sample; the run time shown is the start's distance plus all intervals so far; and
    the context switches shown add up for the child they are shown for. */
  lemma ShownFiguresAddUp(start: real, first: Stored, samples: seq<Sample>, k: nat)
    requires k < |Intervals(start, first, samples)|
    ensures var (xs, last) := (Intervals(start, first, samples), LastOf(first, samples));
            && xs[k].runTime == SumTimes(xs[..k + 1]) + first.time - start
            && SumCounted(xs) == last.time - first.time
            && Switched(SumSwitches(true, xs), first.ping, last.ping)
            && Switched(SumSwitches(false, xs), first.pong, last.pong)
  {
    var xs := Intervals(start, first, samples);
    EveryIntervalTells(start, first, samples, k);
    SumsUpTo(start, first, samples, k + 1);
    SumsUpTo(start, first, samples, |xs|);
    assert xs[..|xs|] == xs;
  }

  /** From 1.9 s to 3.1 s it is 1.2 s, in microseconds and in nanoseconds. */
  lemma BorrowsASecond()
    ensures Elapsed(MICROS, Time(1, 900_000), Time(3, 100_000)) == Time(1, 200_000)
    ensures Elapsed(NANOS, Time(1, 900_000_000), Time(3, 100_000_000)) == Time(1, 200_000_000)
  {
  }
}
