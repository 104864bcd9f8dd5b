/** Rolling robust statistics and the anomaly check built on them, over the reals. */
module Anomaly {
  import opened Options
  import opened HistoryTypes

  const WINDOW_LEN: nat := 180
  const MIN_SAMPLES: nat := 30
  const Z_THRESHOLD := 5.0
  const EWMA_FAST_ALPHA := 0.1
  const EWMA_SLOW_ALPHA := 0.01
  const EWMA_SHIFT_THRESHOLD := 3.0
  /** Makes MAD comparable with a standard deviation. */
  const MAD_SCALE := 1.4826
  /** The score of any deviation from a window without spread. */
  const FLAT_SCORE := 1000000.0

  function Abs(x: real): real {
    if x < 0.0 then -x else x
  }

  // ----- sorting, as the library does it

  function Insert(x: real, sorted: seq<real>): seq<real> {
    if sorted == [] || x <= sorted[0] then [x] + sorted else [sorted[0]] + Insert(x, sorted[1..])
  }

  function Sort(s: seq<real>): seq<real> {
    if s == [] then [] else Insert(s[0], Sort(s[1..]))
  }

  ghost predicate Sorted(s: seq<real>) {
    forall i, j | 0 <= i < j < |s| :: s[i] <= s[j]
  }

  lemma {:induction false} InsertBound(x: real, s: seq<real>, bound: real)
    requires bound <= x && forall i | 0 <= i < |s| :: bound <= s[i]
    ensures forall i | 0 <= i < |Insert(x, s)| :: bound <= Insert(x, s)[i]
  {
    if s != [] && x > s[0] {
      InsertBound(x, s[1..], bound);
    }
  }

  lemma {:induction false} InsertSorts(x: real, s: seq<real>)
    requires Sorted(s)
    ensures Sorted(Insert(x, s))
  {
    if s != [] && x > s[0] {
      InsertSorts(x, s[1..]);
      InsertBound(x, s[1..], s[0]);
    }
  }

  lemma {:induction false} InsertAdds(x: real, s: seq<real>)
    ensures multiset(Insert(x, s)) == multiset(s) + multiset{x}
  {
    if s != [] {
      assert s == [s[0]] + s[1..];
      if x > s[0] {
        InsertAdds(x, s[1..]);
      }
    }
  }

  lemma {:induction false} SortSorts(s: seq<real>)
    ensures Sorted(Sort(s))
  {
    if s != [] {
      SortSorts(s[1..]);
      InsertSorts(s[0], Sort(s[1..]));
    }
  }

  lemma {:induction false} SortPermutes(s: seq<real>)
    ensures multiset(Sort(s)) == multiset(s)
  {
    if s != [] {
      SortPermutes(s[1..]);
      InsertAdds(s[0], Sort(s[1..]));
      assert s == [s[0]] + s[1..];
    }
  }

  lemma SortLength(s: seq<real>)
    ensures |Sort(s)| == |s|
  {
    SortPermutes(s);
    assert |multiset(Sort(s))| == |multiset(s)|;
  }

  lemma LeastFirst(a: seq<real>, b: seq<real>)
    requires a != [] && Sorted(b) && multiset(a) == multiset(b)
    ensures b != [] && b[0] <= a[0]
  {
    assert a[0] in multiset(b);
    var j :| 0 <= j < |b| && b[j] == a[0];
  }

  lemma TailMultiset(a: seq<real>)
    requires a != []
    ensures multiset(a[1..]) == multiset(a) - multiset{a[0]}
  {
    assert a == [a[0]] + a[1..];
  }

  /** Any sorted permutation of a sequence is its `Sort`, so the statistics do not depend on how the
      library sorts. */
  lemma {:induction false} SortedIsUnique(a: seq<real>, b: seq<real>)
    requires Sorted(a) && Sorted(b) && multiset(a) == multiset(b)
    ensures a == b
  {
    if a == [] {
      assert |multiset(b)| == |multiset(a)| == 0;
    } else {
      LeastFirst(a, b);
      LeastFirst(b, a);
      TailMultiset(a);
      TailMultiset(b);
      SortedIsUnique(a[1..], b[1..]);
      assert a == [a[0]] + a[1..] && b == [b[0]] + b[1..];
    }
  }

  // ----- the statistics

  function MiddleOf(sorted: seq<real>): real
    requires sorted != []
  {
    var mid := |sorted| / 2;
    if |sorted| % 2 == 0 then (sorted[mid - 1] + sorted[mid]) / 2.0 else sorted[mid]
  }

  function Median(s: seq<real>): real
    requires s != []
  {
    SortLength(s);
    MiddleOf(Sort(s))
  }

  function Deviations(s: seq<real>, centre: real): (r: seq<real>)
    ensures |r| == |s|
  {
    if s == [] then [] else [Abs(s[0] - centre)] + Deviations(s[1..], centre)
  }

  function Mad(s: seq<real>, centre: real): real
    requires s != []
  {
    Median(Deviations(s, centre))
  }

  datatype Stats = Stats(window: seq<real>, fast: Option<real>, slow: Option<real>)

  const NewStats := Stats([], None, None)

  function Smooth(alpha: real, prev: Option<real>, value: real): real {
    match prev
    case Some(p) => alpha * value + (1.0 - alpha) * p
    case None => value
  }

  function Pushed(st: Stats, value: real): Stats {
    var longer := st.window + [value];
    Stats(if |longer| > WINDOW_LEN then longer[1..] else longer,
          Some(Smooth(EWMA_FAST_ALPHA, st.fast, value)), Some(Smooth(EWMA_SLOW_ALPHA, st.slow, value)))
  }

  /** A deviation in MAD-widths; without any spread every deviation counts the same. */
  function Score(deviates: bool, deviation: real, mad: real): real {
    if mad == 0.0 then (if deviates then FLAT_SCORE else 0.0) else deviation / (MAD_SCALE * mad)
  }

  function RobustZScore(st: Stats, value: real): Option<real> {
    if |st.window| < MIN_SAMPLES then None
    else
      var median := Median(st.window);
      var mad := Mad(st.window, median);
      Some(Score(value != median, Abs(value - median), mad))
  }

  function EwmaShiftScore(st: Stats): Option<real> {
    if |st.window| < MIN_SAMPLES || st.fast.None? || st.slow.None? then None
    else
      var mad := Mad(st.window, Median(st.window));
      Some(Score(st.fast != st.slow, Abs(st.fast.value - st.slow.value), mad))
  }

  /** The score an alert carries: the spike score where it counts, else the shift score. */
  function Finding(st: Stats, value: real): Option<real> {
    var z, shift := RobustZScore(st, value), EwmaShiftScore(st);
    if z.Some? && z.value >= Z_THRESHOLD then z
    else if shift.Some? && shift.value >= EWMA_SHIFT_THRESHOLD then shift
    else None
  }

  datatype AnomalyAlert = AnomalyAlert(series: SeriesId, value: real, score: real)

  class RollingStats {
    var window: seq<real>
    var ewmaFast: Option<real>
    var ewmaSlow: Option<real>

    function State(): Stats
      reads this
    {
      Stats(window, ewmaFast, ewmaSlow)
    }

    constructor ()
      ensures State() == NewStats
    {
      window, ewmaFast, ewmaSlow := [], None, None;
    }

    method Push(value: real)
      modifies this
      ensures State() == Pushed(old(State()), value)
    {
      window := window + [value];
      if |window| > WINDOW_LEN {
        window := window[1..];
      }
      ewmaFast := Some(Smooth(EWMA_FAST_ALPHA, ewmaFast, value));
      ewmaSlow := Some(Smooth(EWMA_SLOW_ALPHA, ewmaSlow, value));
    }
  }

  /** Scores against the window before this reading joins it; a missing reading changes nothing. */
  method Check(stats: RollingStats, series: SeriesId, reading: Option<real>, alerts: seq<AnomalyAlert>)
    returns (alerts': seq<AnomalyAlert>)
    modifies stats
    ensures reading.None? ==> stats.State() == old(stats.State()) && alerts' == alerts
    ensures reading.Some? ==>
              && stats.State() == Pushed(old(stats.State()), reading.value)
              && alerts' == match Finding(old(stats.State()), reading.value)
                            case None => alerts
                            case Some(score) => alerts + [AnomalyAlert(series, reading.value, score)]
  {
    if reading.None? {
      return alerts;
    }
    var value := reading.value;
    var z := RobustZScore(stats.State(), value);
    var shift := EwmaShiftScore(stats.State());
    stats.Push(value);
    if z.Some? && z.value >= Z_THRESHOLD {
      return alerts + [AnomalyAlert(series, value, z.value)];
    }
    if shift.Some? && shift.value >= EWMA_SHIFT_THRESHOLD {
      return alerts + [AnomalyAlert(series, value, shift.value)];
    }
    return alerts;
  }
}
