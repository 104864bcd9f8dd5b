/** What the robust statistics guarantee, whatever a minority of the window contains. */
module AnomalyTheorems {
  import opened Options
  import opened Anomaly

  function CountIn(s: seq<real>, lo: real, hi: real): nat {
    if s == [] then 0 else (if lo <= s[0] <= hi then 1 else 0) + CountIn(s[1..], lo, hi)
  }

  predicate MajorityIn(s: seq<real>, lo: real, hi: real) {
    2 * CountIn(s, lo, hi) > |s|
  }

  lemma {:induction false} CountAppend(a: seq<real>, b: seq<real>, lo: real, hi: real)
    ensures CountIn(a + b, lo, hi) == CountIn(a, lo, hi) + CountIn(b, lo, hi)
  {
    if a == [] {
      assert a + b == b;
    } else {
      assert (a + b)[1..] == a[1..] + b;
      CountAppend(a[1..], b, lo, hi);
    }
  }

  lemma {:induction false} CountBounds(s: seq<real>, lo: real, hi: real)
    ensures CountIn(s, lo, hi) <= |s|
    ensures (forall i | 0 <= i < |s| :: s[i] < lo || s[i] > hi) ==> CountIn(s, lo, hi) == 0
  {
    if s != [] {
      CountBounds(s[1..], lo, hi);
    }
  }

  lemma {:induction false} InsertCount(x: real, s: seq<real>, lo: real, hi: real)
    ensures CountIn(Insert(x, s), lo, hi) == CountIn(s, lo, hi) + if lo <= x <= hi then 1 else 0
  {
    if s != [] && x > s[0] {
      InsertCount(x, s[1..], lo, hi);
    } else {
      assert ([x] + s)[1..] == s;
    }
  }

  lemma {:induction false} SortCount(s: seq<real>, lo: real, hi: real)
    ensures CountIn(Sort(s), lo, hi) == CountIn(s, lo, hi)
  {
    if s != [] {
      SortCount(s[1..], lo, hi);
      InsertCount(s[0], Sort(s[1..]), lo, hi);
    }
  }

  lemma CountParts(s: seq<real>, lo: real, hi: real, p: nat)
    requires p <= |s|
    ensures CountIn(s, lo, hi) == CountIn(s[..p], lo, hi) + CountIn(s[p..], lo, hi)
  {
    assert s == s[..p] + s[p..];
    CountAppend(s[..p], s[p..], lo, hi);
  }

  lemma NotAbove(s: seq<real>, lo: real, hi: real, p: nat)
    requires Sorted(s) && p < |s| && CountIn(s, lo, hi) > p
    ensures s[p] <= hi
  {
    CountParts(s, lo, hi, p);
    CountBounds(s[..p], lo, hi);
    CountBounds(s[p..], lo, hi);
  }

  lemma NotBelow(s: seq<real>, lo: real, hi: real, p: nat)
    requires Sorted(s) && p < |s| && CountIn(s, lo, hi) > |s| - p - 1
    ensures lo <= s[p]
  {
    CountParts(s, lo, hi, p + 1);
    CountBounds(s[..p + 1], lo, hi);
    CountBounds(s[p + 1..], lo, hi);
  }

  /** A position with fewer than a majority on each side holds a value of the majority's range. */
  lemma MiddleInRange(s: seq<real>, lo: real, hi: real, p: nat)
    requires Sorted(s) && p < |s| && CountIn(s, lo, hi) > p && CountIn(s, lo, hi) > |s| - p - 1
    ensures lo <= s[p] <= hi
  {
    NotAbove(s, lo, hi, p);
    NotBelow(s, lo, hi, p);
  }

  /** The median lies where a strict majority lies. */
  lemma MedianInMajority(s: seq<real>, lo: real, hi: real)
    requires MajorityIn(s, lo, hi)
    ensures s != [] && lo <= Median(s) <= hi
  {
    SortSorts(s);
    SortLength(s);
    SortCount(s, lo, hi);
    var sorted, mid := Sort(s), |s| / 2;
    MiddleInRange(sorted, lo, hi, mid);
    if |s| % 2 == 0 {
      MiddleInRange(sorted, lo, hi, mid - 1);
    }
  }

  lemma {:induction false} DeviationsCount(s: seq<real>, centre: real, lo: real, hi: real)
    requires lo <= centre <= hi
    ensures CountIn(Deviations(s, centre), 0.0, hi - lo) >= CountIn(s, lo, hi)
  {
    if s != [] {
      DeviationsCount(s[1..], centre, lo, hi);
      assert Deviations(s, centre)[1..] == Deviations(s[1..], centre);
    }
  }

  /** The MAD is at most the width of the majority's range. */
  lemma MadInMajority(s: seq<real>, lo: real, hi: real)
    requires MajorityIn(s, lo, hi)
    ensures s != [] && lo <= Median(s) <= hi && 0.0 <= Mad(s, Median(s)) <= hi - lo
  {
    MedianInMajority(s, lo, hi);
    DeviationsCount(s, Median(s), lo, hi);
    MedianInMajority(Deviations(s, Median(s)), 0.0, hi - lo);
  }

  function DistanceTo(x: real, lo: real, hi: real): real {
    if x < lo then lo - x else if x > hi then x - hi else 0.0
  }

  /** Guaranteed detection: a reading far enough from the range a strict majority of the window lies
      in is always reported as a spike, whatever the other values in the window are. */
  lemma FarReadingIsFound(st: Stats, lo: real, hi: real, x: real)
    requires |st.window| >= MIN_SAMPLES && MajorityIn(st.window, lo, hi)
    requires DistanceTo(x, lo, hi) > 0.0 && DistanceTo(x, lo, hi) >= Z_THRESHOLD * (MAD_SCALE * (hi - lo))
    ensures Finding(st, x).Some? && Finding(st, x) == RobustZScore(st, x) && Finding(st, x).value >= Z_THRESHOLD
  {
    MadInMajority(st.window, lo, hi);
    var median := Median(st.window);
    FarReadingScores(x, median, Mad(st.window, median), lo, hi);
    SpikeScoreIs(st, x, median, Mad(st.window, median));
    SpikeFound(st, x);
  }

  lemma SpikeScoreIs(st: Stats, x: real, median: real, mad: real)
    requires |st.window| >= MIN_SAMPLES && median == Median(st.window) && mad == Mad(st.window, median)
    ensures RobustZScore(st, x) == Some(Score(x != median, Abs(x - median), mad))
  {
  }

  lemma ShiftScoreIs(st: Stats, mad: real)
    requires |st.window| >= MIN_SAMPLES && mad == Mad(st.window, Median(st.window))
    requires st.fast.Some? && st.slow.Some?
    ensures EwmaShiftScore(st) == Some(Score(st.fast != st.slow, Abs(st.fast.value - st.slow.value), mad))
  {
  }

  lemma SpikeFound(st: Stats, x: real)
    requires RobustZScore(st, x).Some? && RobustZScore(st, x).value >= Z_THRESHOLD
    ensures Finding(st, x) == RobustZScore(st, x)
  {
  }

  lemma ShiftFound(st: Stats, x: real)
    requires EwmaShiftScore(st).Some? && EwmaShiftScore(st).value >= EWMA_SHIFT_THRESHOLD
    ensures Finding(st, x).Some? && Finding(st, x).value >= EWMA_SHIFT_THRESHOLD
  {
  }

  lemma FarReadingScores(x: real, median: real, mad: real, lo: real, hi: real)
    requires lo <= median <= hi && 0.0 <= mad <= hi - lo
    requires DistanceTo(x, lo, hi) > 0.0 && DistanceTo(x, lo, hi) >= Z_THRESHOLD * (MAD_SCALE * (hi - lo))
    ensures Score(x != median, Abs(x - median), mad) >= Z_THRESHOLD
  {
    FarFromRange(x, median, lo, hi);
    LargeDeviationScores(Abs(x - median), mad, hi - lo, Z_THRESHOLD);
  }

  lemma FarFromRange(x: real, centre: real, lo: real, hi: real)
    requires lo <= centre <= hi
    ensures Abs(x - centre) >= DistanceTo(x, lo, hi)
    ensures DistanceTo(x, lo, hi) > 0.0 ==> x != centre
  {
  }

  lemma LargeDeviationScores(deviation: real, mad: real, width: real, threshold: real)
    requires 0.0 <= mad <= width && 0.0 < threshold <= FLAT_SCORE
    requires deviation >= threshold * (MAD_SCALE * width)
    ensures Score(true, deviation, mad) >= threshold
  {
    if mad > 0.0 {
      WideQuotient(deviation, MAD_SCALE * mad, MAD_SCALE * width, threshold);
    }
  }

  lemma WideQuotient(deviation: real, unit: real, wide: real, threshold: real)
    requires 0.0 < unit <= wide && threshold > 0.0 && deviation >= threshold * wide
    ensures deviation / unit >= threshold
  {
    ScaleUpLeft(unit, wide, threshold);
    QuotientAtLeast(deviation, unit, threshold);
  }

  lemma ScaleUpLeft(a: real, b: real, scale: real)
    requires scale > 0.0 && a <= b
    ensures scale * a <= scale * b
  {
  }

  lemma QuotientAtLeast(d: real, scale: real, z: real)
    requires scale > 0.0 && z * scale <= d
    ensures d / scale >= z
  {
    var q := d / scale;
    assert q * scale == d;
    ScaleUp(q, z, scale);
  }

  lemma ScaleUp(a: real, b: real, scale: real)
    requires scale > 0.0
    ensures a < b ==> a * scale < b * scale
  {
  }

  /** The same for a sustained shift: once the two moving averages are far enough apart on the scale of
      the majority's range, every reading is reported. */
  lemma SeparatedAveragesAreFound(st: Stats, lo: real, hi: real, x: real)
    requires |st.window| >= MIN_SAMPLES && MajorityIn(st.window, lo, hi)
    requires st.fast.Some? && st.slow.Some? && st.fast != st.slow
    requires Abs(st.fast.value - st.slow.value) >= EWMA_SHIFT_THRESHOLD * (MAD_SCALE * (hi - lo))
    ensures Finding(st, x).Some? && Finding(st, x).value >= EWMA_SHIFT_THRESHOLD
  {
    MadInMajority(st.window, lo, hi);
    var mad := Mad(st.window, Median(st.window));
    LargeDeviationScores(Abs(st.fast.value - st.slow.value), mad, hi - lo, EWMA_SHIFT_THRESHOLD);
    ShiftScoreIs(st, mad);
    ShiftFound(st, x);
  }

  // ----- what the statistics are, and exactly when something is reported

  /** The median is the middle of the two values that meet in the middle of any sorted arrangement; for an odd number
      of values those are one and the same. */
  lemma MedianIs(s: seq<real>, sorted: seq<real>)
    requires s != [] && Sorted(sorted) && multiset(sorted) == multiset(s)
    ensures |sorted| == |s| && Median(s) == (sorted[(|s| - 1) / 2] + sorted[|s| / 2]) / 2.0
  {
    SortSorts(s);
    SortPermutes(s);
    SortLength(s);
    SortedIsUnique(sorted, Sort(s));
  }

  lemma {:induction false} DeviationsAre(s: seq<real>, centre: real)
    ensures forall i | 0 <= i < |s| ::
              Deviations(s, centre)[i] == if s[i] < centre then centre - s[i] else s[i] - centre
  {
    if s != [] {
      DeviationsAre(s[1..], centre);
    }
  }

  /** The values at least this far from the centre. */
  function CountFar(s: seq<real>, centre: real, w: real): nat {
    if s == [] then 0 else (if s[0] >= centre + w || s[0] <= centre - w then 1 else 0) + CountFar(s[1..], centre, w)
  }

  lemma {:induction false} Largest(s: seq<real>) returns (bound: real)
    ensures forall i | 0 <= i < |s| :: s[i] <= bound
  {
    if s == [] {
      bound := 0.0;
    } else {
      var rest := Largest(s[1..]);
      bound := if rest < s[0] then s[0] else rest;
    }
  }

  lemma {:induction false} FarDeviations(s: seq<real>, centre: real, w: real, bound: real)
    requires w >= 0.0 && forall i | 0 <= i < |s| :: Deviations(s, centre)[i] <= bound
    ensures CountIn(Deviations(s, centre), w, bound) >= CountFar(s, centre, w)
  {
    if s != [] {
      var d := Deviations(s, centre);
      assert d[0] <= bound && d[1..] == Deviations(s[1..], centre);
      forall i | 0 <= i < |s[1..]| ensures Deviations(s[1..], centre)[i] <= bound {
        assert d[i + 1] <= bound;
      }
      FarDeviations(s[1..], centre, w, bound);
    }
  }

  /** When a strict majority of the values lies at least this far from the median, so does the MAD. */
  lemma MadAtLeast(s: seq<real>, w: real)
    requires s != [] && w >= 0.0 && 2 * CountFar(s, Median(s), w) > |s|
    ensures Mad(s, Median(s)) >= w
  {
    var d := Deviations(s, Median(s));
    var bound := Largest(d);
    FarDeviations(s, Median(s), w, bound);
    MedianInMajority(d, w, bound);
  }

  lemma {:induction false} DeviationsNonNegative(s: seq<real>, centre: real, bound: real)
    requires forall i | 0 <= i < |s| :: Deviations(s, centre)[i] <= bound
    ensures CountIn(Deviations(s, centre), 0.0, bound) == |s|
  {
    if s != [] {
      var d := Deviations(s, centre);
      assert d[0] <= bound && d[1..] == Deviations(s[1..], centre);
      forall i | 0 <= i < |s[1..]| ensures Deviations(s[1..], centre)[i] <= bound {
        assert d[i + 1] <= bound;
      }
      DeviationsNonNegative(s[1..], centre, bound);
    }
  }

  lemma MadNonNegative(s: seq<real>, centre: real)
    requires s != []
    ensures Mad(s, centre) >= 0.0
  {
    var d := Deviations(s, centre);
    var bound := Largest(d);
    DeviationsNonNegative(s, centre, bound);
    MedianInMajority(d, 0.0, bound);
  }

  /** The distance that counts as this many robust standard deviations. */
  function Reach(threshold: real, mad: real): real {
    threshold * (1.4826 * mad)
  }

  lemma ScoreIff(deviation: real, mad: real, threshold: real)
    requires mad > 0.0
    ensures Score(true, deviation, mad) >= threshold <==> deviation >= Reach(threshold, mad)
    ensures Score(true, deviation, mad) == Score(false, deviation, mad)
    ensures Score(true, deviation, mad) * (1.4826 * mad) == deviation
  {
    QuotientIff(deviation, 1.4826 * mad, threshold);
  }

  lemma QuotientIff(d: real, unit: real, z: real)
    requires unit > 0.0
    ensures d / unit >= z <==> d >= z * unit
    ensures d / unit * unit == d
  {
    var q := d / unit;
    assert q * unit == d;
    ScaleUp(q, z, unit);
    ScaleUp(z, q, unit);
  }

  /** A reading departs when it lies at least five robust standard deviations from the median; without any spread, when
      it is not the median. */
  predicate Departs(x: real, median: real, mad: real) {
    if mad == 0.0 then x != median else Abs(x - median) >= Reach(5.0, mad)
  }

  /** The averages part when they lie three such deviations apart; without any spread, when they differ. */
  predicate Parts(fast: real, slow: real, mad: real) {
    if mad == 0.0 then fast != slow else Abs(fast - slow) >= Reach(3.0, mad)
  }

  lemma SpikeIff(st: Stats, x: real, median: real, mad: real)
    requires |st.window| >= MIN_SAMPLES && median == Median(st.window) && mad == Mad(st.window, median)
    ensures RobustZScore(st, x).Some?
    ensures RobustZScore(st, x).value >= 5.0 <==> Departs(x, median, mad)
  {
    MadNonNegative(st.window, median);
    SpikeScoreIs(st, x, median, mad);
    if mad > 0.0 {
      ScoreIff(Abs(x - median), mad, 5.0);
    }
  }

  lemma ShiftIff(st: Stats, mad: real)
    requires |st.window| >= MIN_SAMPLES && mad == Mad(st.window, Median(st.window)) && st.fast.Some? && st.slow.Some?
    ensures EwmaShiftScore(st).Some?
    ensures EwmaShiftScore(st).value >= 3.0 <==> Parts(st.fast.value, st.slow.value, mad)
  {
    MadNonNegative(st.window, Median(st.window));
    ShiftScoreIs(st, mad);
    if mad > 0.0 {
      ScoreIff(Abs(st.fast.value - st.slow.value), mad, 3.0);
    }
  }

  /** Exactly when a reading is reported: with thirty readings in the window, when it departs or the averages part;
      before that never. */
  lemma FindingIff(st: Stats, x: real)
    requires st.fast.Some? && st.slow.Some?
    ensures |st.window| < 30 ==> Finding(st, x).None?
    ensures |st.window| >= 30 ==>
              var median := Median(st.window);
              var mad := Mad(st.window, median);
              Finding(st, x).Some? <==> Departs(x, median, mad) || Parts(st.fast.value, st.slow.value, mad)
  {
    if |st.window| >= 30 {
      var median := Median(st.window);
      var mad := Mad(st.window, median);
      SpikeIff(st, x, median, mad);
      ShiftIff(st, mad);
    }
  }

  /** The score an alert carries: the distance of the reading in robust standard deviations when it departs, else that
      of the averages; a million without any spread. */
  lemma FindingCarries(st: Stats, x: real)
    requires |st.window| >= 30 && st.fast.Some? && st.slow.Some? && Finding(st, x).Some?
    ensures var median := Median(st.window);
            var mad := Mad(st.window, median);
            var score := Finding(st, x).value;
            if mad == 0.0 then score == 1000000.0
            else score * (1.4826 * mad)
                 == if Departs(x, median, mad) then Abs(x - median) else Abs(st.fast.value - st.slow.value)
  {
    var median := Median(st.window);
    var mad := Mad(st.window, median);
    MadNonNegative(st.window, median);
    SpikeIff(st, x, median, mad);
    ShiftIff(st, mad);
    SpikeScoreIs(st, x, median, mad);
    ShiftScoreIs(st, mad);
    if mad > 0.0 {
      ScoreIff(Abs(x - median), mad, 5.0);
      ScoreIff(Abs(st.fast.value - st.slow.value), mad, 3.0);
    }
  }

  /** Close readings are never reported: when a strict majority of the window lies at least `w` from its median, a
      reading nearer to the median than 5 * 1.4826 * w raises nothing while the averages are nearer to each other than
      3 * 1.4826 * w. */
  lemma CloseReadingIsNotFound(st: Stats, x: real, w: real)
    requires st.window != [] && st.fast.Some? && st.slow.Some?
    requires w > 0.0 && 2 * CountFar(st.window, Median(st.window), w) > |st.window|
    requires Abs(x - Median(st.window)) < Reach(5.0, w) && Abs(st.fast.value - st.slow.value) < Reach(3.0, w)
    ensures Finding(st, x).None?
  {
    MadAtLeast(st.window, w);
    ReachGrows(5.0, w, Mad(st.window, Median(st.window)));
    ReachGrows(3.0, w, Mad(st.window, Median(st.window)));
    FindingIff(st, x);
  }

  lemma ReachGrows(threshold: real, w: real, mad: real)
    requires threshold > 0.0 && w <= mad
    ensures Reach(threshold, w) <= Reach(threshold, mad)
  {
    ScaleUpLeft(1.4826 * w, 1.4826 * mad, threshold);
  }

  // ----- over a whole series of readings

  function StatsAfter(values: seq<real>): Stats {
    if values == [] then NewStats else Pushed(StatsAfter(values[..|values| - 1]), values[|values| - 1])
  }

  /** The window is always the last WINDOW_LEN readings. */
  lemma {:induction false} WindowIsSuffix(values: seq<real>)
    ensures StatsAfter(values).window == if |values| <= WINDOW_LEN then values else values[|values| - WINDOW_LEN..]
    ensures StatsAfter(values).fast.Some? <==> values != []
    ensures StatsAfter(values).slow.Some? <==> values != []
  {
    if values != [] {
      WindowIsSuffix(values[..|values| - 1]);
      assert values == values[..|values| - 1] + [values[|values| - 1]];
    }
  }

  /** Detection over runs: the condition speaks of the recent readings only. */
  lemma FarReadingIsFoundInRun(values: seq<real>, lo: real, hi: real, x: real)
    requires |values| >= MIN_SAMPLES
    requires MajorityIn(if |values| <= WINDOW_LEN then values else values[|values| - WINDOW_LEN..], lo, hi)
    requires DistanceTo(x, lo, hi) > 0.0 && DistanceTo(x, lo, hi) >= Z_THRESHOLD * (MAD_SCALE * (hi - lo))
    ensures Finding(StatsAfter(values), x).Some?
  {
    WindowIsSuffix(values);
    FarReadingIsFound(StatsAfter(values), lo, hi, x);
  }

  /** The same over runs: the averages exist as soon as there is a reading. */
  lemma FoundInRunIff(values: seq<real>, x: real)
    ensures var st := StatsAfter(values);
            && (|values| < 30 ==> Finding(st, x).None?)
            && (|values| >= 30 ==>
                  var median := Median(st.window);
                  var mad := Mad(st.window, median);
                  Finding(st, x).Some? <==> Departs(x, median, mad) || Parts(st.fast.value, st.slow.value, mad))
  {
    WindowIsSuffix(values);
    if values != [] {
      FindingIff(StatsAfter(values), x);
    }
  }

  ghost predicate AllIn(values: seq<real>, lo: real, hi: real) {
    forall i | 0 <= i < |values| :: lo <= values[i] <= hi
  }

  lemma SmoothStaysIn(alpha: real, prev: Option<real>, value: real, lo: real, hi: real)
    requires 0.0 <= alpha <= 1.0 && lo <= value <= hi && (prev.Some? ==> lo <= prev.value <= hi)
    ensures lo <= Smooth(alpha, prev, value) <= hi
  {
    if prev.Some? {
      var p := prev.value;
      assert alpha * (value - lo) >= 0.0 && (1.0 - alpha) * (p - lo) >= 0.0;
      assert alpha * (hi - value) >= 0.0 && (1.0 - alpha) * (hi - p) >= 0.0;
    }
  }

  /** Both averages stay between any bounds on the readings, however long the series. */
  lemma {:induction false} AveragesStayIn(values: seq<real>, lo: real, hi: real)
    requires AllIn(values, lo, hi) && values != []
    ensures var st := StatsAfter(values);
            st.fast.Some? && st.slow.Some? && lo <= st.fast.value <= hi && lo <= st.slow.value <= hi
  {
    var before := values[..|values| - 1];
    if before != [] {
      AveragesStayIn(before, lo, hi);
    }
    SmoothStaysIn(EWMA_FAST_ALPHA, StatsAfter(before).fast, values[|values| - 1], lo, hi);
    SmoothStaysIn(EWMA_SLOW_ALPHA, StatsAfter(before).slow, values[|values| - 1], lo, hi);
  }

  function Power(base: real, n: nat): real {
    if n == 0 then 1.0 else base * Power(base, n - 1)
  }

  /** `n` readings of the same value. */
  function PushedTimes(st: Stats, value: real, n: nat): Stats {
    if n == 0 then st else Pushed(PushedTimes(st, value, n - 1), value)
  }

  /** A value that has kept this share of its distance to a level. */
  function Towards(level: real, kept: real, start: real): real {
    level + kept * (start - level)
  }

  function SmoothTimes(alpha: real, start: real, level: real, n: nat): real {
    if n == 0 then start else Smooth(alpha, Some(SmoothTimes(alpha, start, level, n - 1)), level)
  }

  lemma {:induction false} SmoothTimesDecays(alpha: real, start: real, level: real, n: nat)
    ensures SmoothTimes(alpha, start, level, n) == Towards(level, Power(1.0 - alpha, n), start)
  {
    if n == 0 {
      WholeDistance(level, start);
    } else {
      SmoothTimesDecays(alpha, start, level, n - 1);
      Decay(alpha, 1.0 - alpha, Power(1.0 - alpha, n - 1), start, level);
    }
  }

  lemma {:induction false} AveragesSmooth(st: Stats, level: real, n: nat)
    requires st.fast.Some? && st.slow.Some?
    ensures PushedTimes(st, level, n).fast == Some(SmoothTimes(EWMA_FAST_ALPHA, st.fast.value, level, n))
    ensures PushedTimes(st, level, n).slow == Some(SmoothTimes(EWMA_SLOW_ALPHA, st.slow.value, level, n))
  {
    if n > 0 {
      AveragesSmooth(st, level, n - 1);
    }
  }

  /** Step response: after n readings of a new level the fast average has kept 0.9^n of its distance to
      that level, and the slow one 0.99^n. */
  lemma StepResponse(st: Stats, level: real, n: nat)
    requires st.fast.Some? && st.slow.Some?
    ensures PushedTimes(st, level, n).fast == Some(Towards(level, Power(0.9, n), st.fast.value))
    ensures PushedTimes(st, level, n).slow == Some(Towards(level, Power(0.99, n), st.slow.value))
  {
    AveragesSmooth(st, level, n);
    SmoothTimesDecays(EWMA_FAST_ALPHA, st.fast.value, level, n);
    SmoothTimesDecays(EWMA_SLOW_ALPHA, st.slow.value, level, n);
  }

  lemma WholeDistance(level: real, start: real)
    ensures Towards(level, 1.0, start) == start
  {
  }

  lemma Decay(alpha: real, keep: real, kept: real, start: real, level: real)
    requires keep == 1.0 - alpha
    ensures Smooth(alpha, Some(Towards(level, kept, start)), level) == Towards(level, keep * kept, start)
  {
    var x := kept * (start - level);
    assert keep * (level + x) == keep * level + keep * x;
    assert keep * x == keep * kept * (start - level);
    assert alpha * level + keep * level == level;
  }

  lemma {:induction false} AllInCount(s: seq<real>, lo: real, hi: real)
    requires AllIn(s, lo, hi)
    ensures CountIn(s, lo, hi) == |s|
  {
    if s != [] {
      AllInCount(s[1..], lo, hi);
    }
  }

  /** With no spread at all a reading is flagged exactly when it, or a moving average, departs. */
  lemma FlatWindow(st: Stats, c: real, x: real)
    requires |st.window| >= MIN_SAMPLES && MajorityIn(st.window, c, c)
    requires st.fast == st.slow == Some(c)
    ensures Finding(st, x).Some? <==> x != c
  {
    MadInMajority(st.window, c, c);
    SpikeScoreIs(st, x, c, 0.0);
    ShiftScoreIs(st, 0.0);
  }

  /** A flat series never flags itself, and the first reading off it is always flagged. */
  lemma FlatSeriesFlagsOnlyDepartures(values: seq<real>, c: real, x: real)
    requires AllIn(values, c, c) && |values| >= MIN_SAMPLES
    ensures Finding(StatsAfter(values), x).Some? <==> x != c
  {
    var st := StatsAfter(values);
    WindowIsSuffix(values);
    AllInCount(st.window, c, c);
    AveragesStayIn(values, c, c);
    FlatWindow(st, c, x);
  }
}
