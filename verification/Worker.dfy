/** A worker thread's schedule: which collectors a visible pass runs, and when the thread wakes next.
    Instants are milliseconds on the monotonic clock. */
module Worker {
  import opened Options
  import opened Arithmetic

  const HIDDEN_POLL := 250

  datatype Cadence = Hot | Warm(every: nat) | Cold(every: nat) | OnDemand

  /** `period` is None where the source uses the longest duration there is: never run on a timer. */
  datatype Scheduled = Scheduled(period: Option<nat>, nextDue: int)

  function PeriodOf(c: Cadence): Option<nat> {
    match c
    case Warm(d) => Some(d)
    case Cold(d) => Some(d)
    case Hot => Some(0)
    case OnDemand => None
  }

  function InitialJitter(index: nat): nat {
    index * 137 % 250
  }

  predicate Due(s: Scheduled, now: int) {
    s.period.Some? && now >= s.nextDue
  }

  function AfterPass(s: Scheduled, now: int): Scheduled {
    if Due(s, now) then s.(nextDue := now + s.period.value) else s
  }

  function PassAll(ss: seq<Scheduled>, now: int): (r: seq<Scheduled>)
    ensures |r| == |ss| && forall i | 0 <= i < |ss| :: r[i] == AfterPass(ss[i], now)
  {
    seq(|ss|, i requires 0 <= i < |ss| => AfterPass(ss[i], now))
  }

  function Min(a: int, b: int): int {
    if a < b then a else b
  }

  /** The earliest time something may be due, at most one poll interval away. */
  function NextWake(ss: seq<Scheduled>, now: int): int {
    if ss == [] then now + HIDDEN_POLL
    else
      var last := ss[|ss| - 1];
      var before := NextWake(ss[..|ss| - 1], now);
      if last.period.Some? then Min(before, last.nextDue) else before
  }

  /** The schedule a worker starts with. */
  function Initial(cadences: seq<Cadence>, start: int): (r: seq<Scheduled>)
    ensures |r| == |cadences|
    ensures forall i | 0 <= i < |cadences| :: r[i] == Scheduled(PeriodOf(cadences[i]), start + InitialJitter(i))
  {
    seq(|cadences|,
        i requires 0 <= i < |cadences| => Scheduled(PeriodOf(cadences[i]), start + InitialJitter(i)))
  }

  /** The passes in which a collector ran. */
  function TimesOf(log: seq<seq<nat>>, passes: seq<int>, i: nat): seq<int>
    requires |log| <= |passes|
  {
    if log == [] then []
    else
      var n := |log| - 1;
      TimesOf(log[..n], passes, i) + if i in log[n] then [passes[n]] else []
  }

  class WorkerLoop {
    var scheduled: seq<Scheduled>

    /** Every collector starts due at its own jitter; they stay apart as long as there are at most 250. */
    constructor (cadences: seq<Cadence>, start: int)
      ensures scheduled == Initial(cadences, start)
    {
      scheduled := Initial(cadences, start);
    }

    /** The loop over visible passes: each collector runs in exactly the passes `CollectTimes` gives it. */
    method RunPasses(passes: seq<int>) returns (log: seq<seq<nat>>)
      modifies this
      ensures |log| == |passes|
      ensures forall i: nat | i < |old(scheduled)| :: TimesOf(log, passes, i) == CollectTimes(old(scheduled)[i], passes)
    {
      log := [];
      for n := 0 to |passes|
        invariant |log| == n && |scheduled| == |old(scheduled)|
        invariant forall i: nat | i < |scheduled| :: scheduled[i] == AfterPasses(old(scheduled)[i], passes[..n])
        invariant forall i: nat | i < |scheduled| ::
                    TimesOf(log, passes, i) == CollectTimes(old(scheduled)[i], passes[..n])
      {
        var before := scheduled;
        var collected, _ := RunPass(passes[n]);
        assert (log + [collected])[..n] == log;
        forall i: nat | i < |before|
          ensures scheduled[i] == AfterPasses(old(scheduled)[i], passes[..n + 1])
          ensures TimesOf(log + [collected], passes, i) == CollectTimes(old(scheduled)[i], passes[..n + 1])
        {
          assert passes[..n + 1] == passes[..n] + [passes[n]];
          OneMorePass(old(scheduled)[i], passes[..n], passes[n]);
        }
        log := log + [collected];
      }
      assert passes[..|passes|] == passes;
    }

    /** One visible pass. It collects exactly the due collectors, each once and in order, and sleeps
        until the earliest next due time or the poll interval. */
    method RunPass(now: int) returns (collected: seq<nat>, nextWake: int)
      modifies this
      ensures scheduled == PassAll(old(scheduled), now)
      ensures nextWake == NextWake(scheduled, now)
      ensures forall i: nat :: i in collected <==> i < |old(scheduled)| && Due(old(scheduled)[i], now)
      ensures forall i, j | 0 <= i < j < |collected| :: collected[i] < collected[j]
    {
      collected := [];
      nextWake := now + HIDDEN_POLL;
      var before := scheduled;
      for n := 0 to |before|
        invariant |scheduled| == |before|
        invariant forall k | 0 <= k < n :: scheduled[k] == AfterPass(before[k], now)
        invariant forall k | n <= k < |before| :: scheduled[k] == before[k]
        invariant nextWake == NextWake(scheduled[..n], now)
        invariant forall i: nat :: i in collected <==> i < n && Due(before[i], now)
        invariant forall i, j | 0 <= i < j < |collected| :: collected[i] < collected[j]
      {
        ghost var done := scheduled[..n];
        if scheduled[n].period.Some? {
          if now >= scheduled[n].nextDue {
            forall i | 0 <= i < |collected| ensures collected[i] < n {
              assert collected[i] in collected;
            }
            collected := collected + [n];
            scheduled := scheduled[n := scheduled[n].(nextDue := now + scheduled[n].period.value)];
          }
          nextWake := Min(nextWake, scheduled[n].nextDue);
        }
        assert scheduled[..n + 1][..n] == done;
      }
      assert scheduled[..|before|] == scheduled;
    }
  }

  // ----- the pass and the wake time

  /** The wake time is the greatest one that oversleeps neither the poll interval nor any due time. */
  lemma {:induction false} NextWakeIsGreatest(ss: seq<Scheduled>, now: int, t: int)
    ensures t <= NextWake(ss, now) <==>
            t <= now + HIDDEN_POLL && forall i | 0 <= i < |ss| && ss[i].period.Some? :: t <= ss[i].nextDue
  {
    if ss != [] {
      var n := |ss| - 1;
      NextWakeIsGreatest(ss[..n], now, t);
      if forall i | 0 <= i < |ss| && ss[i].period.Some? :: t <= ss[i].nextDue {
        forall i | 0 <= i < n && ss[..n][i].period.Some? ensures t <= ss[..n][i].nextDue {
          assert ss[i].period.Some?;
        }
      }
      if t <= NextWake(ss, now) {
        forall i | 0 <= i < |ss| && ss[i].period.Some? ensures t <= ss[i].nextDue {
          assert i < n ==> ss[..n][i] == ss[i];
        }
      }
    }
  }

  lemma OnlyMultiple(x: int, m: int)
    requires x == 250 * m && -250 < x < 250
    ensures x == 0
  {
  }

  /** Jitters differ for any two of the first 250 collectors: 137 has the inverse 73 modulo 250. */
  lemma JittersAreDistinct(i: nat, j: nat)
    requires i < 250 && j < 250
    ensures InitialJitter(i) == InitialJitter(j) <==> i == j
  {
    var p, q := i * 137 / 250, j * 137 / 250;
    assert i * 137 == 250 * p + InitialJitter(i) && j * 137 == 250 * q + InitialJitter(j);
    if InitialJitter(i) == InitialJitter(j) {
      assert 137 * (i - j) == 250 * (p - q);
      OnlyMultiple(i - j, 73 * (p - q) - 40 * (i - j));
    }
  }

  lemma SameRemainder(x: int, y: int, m: int)
    requires x - y == 250 * m
    ensures x % 250 == y % 250
  {
  }

  /** The first collector starts at once, every next one 137 ms further round a quarter of a second. */
  lemma JitterSteps(i: nat)
    ensures InitialJitter(0) == 0 && InitialJitter(i) < 250
    ensures (InitialJitter(i + 1) - InitialJitter(i)) % 250 == 137
  {
    var p, q := i * 137 / 250, (i + 1) * 137 / 250;
    assert i * 137 == 250 * p + InitialJitter(i) && (i + 1) * 137 == 250 * q + InitialJitter(i + 1);
    SameRemainder(InitialJitter(i + 1) - InitialJitter(i), 137, p - q);
  }

  // ----- whole runs of one collector

  /** When a collector runs, given the times of the visible passes. */
  function CollectTimes(s: Scheduled, passes: seq<int>): seq<int>
    decreases |passes|
  {
    if passes == [] then []
    else (if Due(s, passes[0]) then [passes[0]] else []) + CollectTimes(AfterPass(s, passes[0]), passes[1..])
  }

  function AfterPasses(s: Scheduled, passes: seq<int>): Scheduled
    decreases |passes|
  {
    if passes == [] then s else AfterPasses(AfterPass(s, passes[0]), passes[1..])
  }

  lemma {:induction false} OneMorePass(s: Scheduled, passes: seq<int>, now: int)
    ensures AfterPasses(s, passes + [now]) == AfterPass(AfterPasses(s, passes), now)
    ensures CollectTimes(s, passes + [now])
              == CollectTimes(s, passes) + if Due(AfterPasses(s, passes), now) then [now] else []
    decreases |passes|
  {
    if passes == [] {
      assert passes + [now] == [now] && [now][1..] == [];
    } else {
      assert (passes + [now])[1..] == passes[1..] + [now];
      OneMorePass(AfterPass(s, passes[0]), passes[1..], now);
    }
  }

  function CountWithin(times: seq<int>, a: int, b: int): nat {
    if times == [] then 0 else (if a <= times[0] <= b then 1 else 0) + CountWithin(times[1..], a, b)
  }

  lemma {:induction false} WindowSpread(s: Scheduled, passes: seq<int>, a: int, b: int)
    requires s.period.Some?
    ensures var n := CountWithin(CollectTimes(s, passes), a, b);
            n > 0 ==> Times(n - 1, s.period.value) + (if a < s.nextDue then s.nextDue else a) <= b
    decreases |passes|
  {
    if passes != [] {
      var s', rest := AfterPass(s, passes[0]), passes[1..];
      WindowSpread(s', rest, a, b);
      if Due(s, passes[0]) {
        var times := CollectTimes(s', rest);
        assert ([passes[0]] + times)[1..] == times;
        assert CollectTimes(s, passes) == [passes[0]] + times;
        TimesSuccessor(CountWithin(times, a, b) - 1, s.period.value);
      } else {
        assert CollectTimes(s, passes) == CollectTimes(s', rest);
      }
    }
  }

  /** The rate bound: whatever the pass times are, a collector with period d > 0 runs at most
      (b - a) / d + 1 times in a window [a, b]. */
  lemma CollectionRate(s: Scheduled, passes: seq<int>, a: int, b: int)
    requires s.period.Some? && s.period.value > 0 && a <= b
    ensures CountWithin(CollectTimes(s, passes), a, b) <= (b - a) / s.period.value + 1
  {
    WindowSpread(s, passes, a, b);
    var n := CountWithin(CollectTimes(s, passes), a, b);
    if n > 0 {
      TimesQuotient(n - 1, s.period.value, b - a);
    }
  }

  lemma {:induction false} NoPeriodNeverRuns(s: Scheduled, passes: seq<int>)
    requires s.period.None?
    ensures CollectTimes(s, passes) == []
    decreases |passes|
  {
    if passes != [] {
      NoPeriodNeverRuns(s, passes[1..]);
    }
  }

  /** An on-demand collector never runs on a timer. */
  lemma OnDemandNeverRuns(cadences: seq<Cadence>, start: int, i: nat, passes: seq<int>)
    requires i < |cadences| && cadences[i] == OnDemand
    ensures CollectTimes(Initial(cadences, start)[i], passes) == []
  {
    NoPeriodNeverRuns(Initial(cadences, start)[i], passes);
  }

  /** A warm or cold collector runs at most once per cadence, and one time more, in any window. */
  lemma TimedCollectorRate(cadences: seq<Cadence>, start: int, i: nat, d: nat, passes: seq<int>, a: int, b: int)
    requires i < |cadences| && cadences[i] in {Warm(d), Cold(d)} && d > 0 && a <= b
    ensures CountWithin(CollectTimes(Initial(cadences, start)[i], passes), a, b) <= (b - a) / d + 1
  {
    CollectionRate(Initial(cadences, start)[i], passes, a, b);
  }

  /** The passes from an instant on. */
  function From(passes: seq<int>, due: int): seq<int> {
    if passes == [] then []
    else (if passes[0] >= due then [passes[0]] else []) + From(passes[1..], due)
  }

  /** Pass times that do not step back. */
  predicate Forward(passes: seq<int>) {
    |passes| < 2 || (passes[0] <= passes[1] && Forward(passes[1..]))
  }

  lemma {:induction false} ZeroPeriodAlwaysRuns(s: Scheduled, passes: seq<int>)
    requires s.period == Some(0) && Forward(passes)
    ensures CollectTimes(s, passes) == From(passes, s.nextDue)
    decreases |passes|
  {
    if passes != [] {
      var rest := passes[1..];
      ZeroPeriodAlwaysRuns(AfterPass(s, passes[0]), rest);
      if Due(s, passes[0]) {
        FromEarlier(rest, s.nextDue, passes[0]);
      }
    }
  }

  lemma {:induction false} FromEarlier(passes: seq<int>, a: int, b: int)
    requires a <= b && Forward(passes) && (passes != [] ==> b <= passes[0])
    ensures From(passes, a) == From(passes, b)
  {
    if passes != [] {
      FromEarlier(passes[1..], a, b);
    }
  }

  /** A hot collector on a worker runs at every pass from its jittered start on. */
  lemma HotRunsAtEveryPass(cadences: seq<Cadence>, start: int, i: nat, passes: seq<int>)
    requires i < |cadences| && cadences[i] == Hot && Forward(passes)
    ensures CollectTimes(Initial(cadences, start)[i], passes) == From(passes, start + InitialJitter(i))
  {
    ZeroPeriodAlwaysRuns(Initial(cadences, start)[i], passes);
  }

  /** The pass times of a worker whose every sleep ends exactly at its wake time. */
  function PunctualPasses(ss: seq<Scheduled>, now: int, n: nat): seq<int>
    decreases n
  {
    if n == 0 then []
    else
      var after := PassAll(ss, now);
      [now] + PunctualPasses(after, NextWake(after, now), n - 1)
  }

  ghost predicate NoneOverdue(ss: seq<Scheduled>, now: int) {
    forall i | 0 <= i < |ss| && ss[i].period.Some? :: now <= ss[i].nextDue
  }

  /** No drift: with punctual sleeps a collector runs exactly at its first due time plus whole periods,
      whatever the other collectors on the worker do. */
  lemma {:induction false} CadenceIsExact(ss: seq<Scheduled>, now: int, n: nat, i: nat, k: nat)
    requires NoneOverdue(ss, now) && i < |ss| && ss[i].period.Some?
    requires k < |CollectTimes(ss[i], PunctualPasses(ss, now, n))|
    ensures CollectTimes(ss[i], PunctualPasses(ss, now, n))[k] == ss[i].nextDue + Times(k, ss[i].period.value)
    decreases n
  {
    if n > 0 {
      var s, after := ss[i], PassAll(ss, now);
      var wake := NextWake(after, now);
      var rest := PunctualPasses(after, wake, n - 1);
      CollectHead(s, now, rest, PunctualPasses(ss, now, n));
      NextWakeIsGreatest(after, now, wake);
      if !Due(s, now) {
        CadenceIsExact(after, wake, n - 1, i, k);
      } else if k > 0 {
        CadenceIsExact(after, wake, n - 1, i, k - 1);
        TimesSuccessor(k - 1, s.period.value);
      }
    }
  }

  lemma CollectHead(s: Scheduled, now: int, rest: seq<int>, passes: seq<int>)
    requires passes == [now] + rest
    ensures CollectTimes(s, passes) == (if Due(s, now) then [now] else []) + CollectTimes(AfterPass(s, now), rest)
  {
    assert passes[1..] == rest;
  }
}
