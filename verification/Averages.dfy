/** What an average is: a single reading is its own mean, and the mean of a range is the mean of its parts, each
    weighted with the number of readings in it. The two together leave only one function. */
module Averages {
  import opened Options
  import opened Buckets
  import opened HistoryTypes
  import opened Aggregates
  import opened HistoryDb

  /** When there are readings in a range, NULLs aside. */
  function Readings(t: Table, lo: int, hi: int, s: SeriesId): set<int> {
    set ts | ts in t && lo <= ts < hi && t[ts].Column(s).Some?
  }

  lemma {:induction false} CountIsReadings(t: Table, lo: int, hi: int, s: SeriesId)
    ensures Count(t, lo, hi, s) == |Readings(t, lo, hi, s)|
    decreases hi - lo
  {
    if lo < hi {
      CountIsReadings(t, lo, hi - 1, s);
      if Present(t, hi - 1, s) {
        assert Readings(t, lo, hi, s) == Readings(t, lo, hi - 1, s) + {hi - 1};
      } else {
        assert Readings(t, lo, hi, s) == Readings(t, lo, hi - 1, s);
      }
    } else {
      assert Readings(t, lo, hi, s) == {};
    }
  }

  /** A mean counted once for every reading; nothing without readings. */
  function Weighted(t: Table, lo: int, hi: int, s: SeriesId): real {
    match Mean(t, lo, hi, s)
    case None => 0.0
    case Some(mean) => Scaled(mean, |Readings(t, lo, hi, s)| as real)
  }

  lemma QuotientTimes(sum: real, n: real)
    requires n != 0.0
    ensures Scaled(sum / n, n) == sum
  {
  }

  lemma WeightedIsSum(t: Table, lo: int, hi: int, s: SeriesId)
    ensures Weighted(t, lo, hi, s) == Sum(t, lo, hi, s)
  {
    CountIsReadings(t, lo, hi, s);
    if Count(t, lo, hi, s) == 0 {
      NothingToSum(t, lo, hi, s);
    } else {
      QuotientTimes(Sum(t, lo, hi, s), Count(t, lo, hi, s) as real);
    }
  }

  lemma {:induction false} NothingToSum(t: Table, lo: int, hi: int, s: SeriesId)
    requires Count(t, lo, hi, s) == 0
    ensures Sum(t, lo, hi, s) == 0.0
    decreases hi - lo
  {
    if lo < hi {
      NothingToSum(t, lo, hi - 1, s);
    }
  }

  lemma {:induction false} SumSplits(t: Table, lo: int, mid: int, hi: int, s: SeriesId)
    requires lo <= mid <= hi
    ensures Sum(t, lo, hi, s) == Sum(t, lo, mid, s) + Sum(t, mid, hi, s)
    decreases hi - mid
  {
    if mid < hi {
      SumSplits(t, lo, mid, hi - 1, s);
    }
  }

  /** There is a mean exactly when there is a reading. */
  lemma MeanExists(t: Table, lo: int, hi: int, s: SeriesId)
    ensures Mean(t, lo, hi, s).Some? <==> Readings(t, lo, hi, s) != {}
  {
    CountIsReadings(t, lo, hi, s);
  }

  /** The weight law. */
  lemma MeanOfParts(t: Table, lo: int, mid: int, hi: int, s: SeriesId)
    requires lo <= mid <= hi
    ensures |Readings(t, lo, hi, s)| == |Readings(t, lo, mid, s)| + |Readings(t, mid, hi, s)|
    ensures Weighted(t, lo, hi, s) == Weighted(t, lo, mid, s) + Weighted(t, mid, hi, s)
  {
    assert Readings(t, lo, hi, s) == Readings(t, lo, mid, s) + Readings(t, mid, hi, s);
    WeightedIsSum(t, lo, hi, s);
    WeightedIsSum(t, lo, mid, s);
    WeightedIsSum(t, mid, hi, s);
    SumSplits(t, lo, mid, hi, s);
  }

  /** The mean of one reading is that reading. */
  lemma MeanOfOne(t: Table, lo: int, hi: int, s: SeriesId, ts: int)
    requires Readings(t, lo, hi, s) == {ts}
    ensures Mean(t, lo, hi, s) == Some(t[ts].Column(s).value)
  {
    assert ts in Readings(t, lo, hi, s) && Present(t, ts, s);
    var value := t[ts].Column(s).value;
    forall u | lo <= u < hi && Present(t, u, s) ensures u == ts {
      assert u in Readings(t, lo, hi, s);
    }
    MeanHull(t, lo, hi, s, value, value);
  }

  lemma HalfOfTwo(mean: real, x: real, y: real)
    requires Scaled(mean, 2.0) == Scaled(x, 1.0) + Scaled(y, 1.0)
    ensures mean == (x + y) / 2.0
  {
  }

  lemma SplitPair(t: Table, lo: int, hi: int, s: SeriesId, a: int, b: int)
    requires a < b && Readings(t, lo, hi, s) == {a, b}
    ensures lo <= a && b < hi && Readings(t, lo, b, s) == {a} && Readings(t, b, hi, s) == {b}
  {
    assert a in Readings(t, lo, hi, s) && b in Readings(t, lo, hi, s);
    forall u ensures u in Readings(t, lo, b, s) <==> u in Readings(t, lo, hi, s) && u < b {
    }
    forall u ensures u in Readings(t, b, hi, s) <==> u in Readings(t, lo, hi, s) && u >= b {
    }
  }

  /** And of two their middle: what tells an average from any one of its readings. */
  lemma MeanOfTwo(t: Table, lo: int, hi: int, s: SeriesId, a: int, b: int)
    requires a < b && Readings(t, lo, hi, s) == {a, b}
    ensures Mean(t, lo, hi, s) == Some((t[a].Column(s).value + t[b].Column(s).value) / 2.0)
  {
    SplitPair(t, lo, hi, s, a, b);
    MeanOfOne(t, lo, b, s, a);
    MeanOfOne(t, b, hi, s, b);
    MeanOfParts(t, lo, b, hi, s);
    MeanExists(t, lo, hi, s);
    assert |Readings(t, lo, hi, s)| == 2;
    HalfOfTwo(Mean(t, lo, hi, s).value, t[a].Column(s).value, t[b].Column(s).value);
  }

  lemma MeanRowColumn(t: Table, lo: int, hi: int, s: SeriesId)
    ensures MeanRow(t, lo, hi).Column(s) == Mean(t, lo, hi, s)
  {
  }

  lemma ViewRow(t: Table, width: int, b: int, ts: int)
    requires width > 0 && b % width == 0 && ts in t && b <= ts < b + width
    ensures b in View(t, width) && View(t, width)[b] == MeanRow(t, b, b + width)
  {
    AlignedIsBucketStart(b, ts, width);
  }

  lemma FilledRow(src: Table, table: Table, from: int, to: int, width: int, b: int, ts: int)
    requires width > 0 && 0 <= from <= b < to && from % width == 0 && to % width == 0
    requires b % width == 0 && ts in src && b <= ts < b + width
    ensures var filled := table + GroupBySelect(src, from, to, width);
            b in filled && filled[b] == MeanRow(src, b, b + width)
  {
    ViewRow(src, width, b, ts);
    SelectIsView(src, from, to, width);
  }

  lemma StageRow(db: Db, g: Granularity, now: int, slots: nat, b: int, ts: int)
    requires 0 <= db.Mark(g) && db.Mark(g) % Width(g) == 0 && slots >= 1
    requires db.Mark(g) <= b < BucketStart(now, Width(g)) && b % Width(g) == 0
    requires ts in db.Source(g) && b <= ts < b + Width(g)
    ensures var after := RollupStage(db, g, now, slots).Dest(g);
            b in after && after[b] == MeanRow(db.Source(g), b, b + Width(g))
  {
    StageRowOf(db, g, now, slots, b, ts, db.Source(g), db.Mark(g), BucketStart(now, Width(g)), Width(g));
  }

  lemma StageRowOf(
    db: Db, g: Granularity, now: int, slots: nat, b: int, ts: int, src: Table, from: int, to: int, width: int)
    requires src == db.Source(g) && from == db.Mark(g) && width == Width(g) && to == BucketStart(now, width)
    requires 0 <= from <= b < to && from % width == 0 && to % width == 0 && b % width == 0 && slots >= 1
    requires ts in src && b <= ts < b + width
    ensures var after := RollupStage(db, g, now, slots).Dest(g); b in after && after[b] == MeanRow(src, b, b + width)
  {
    FilledRow(src, db.Dest(g), from, to, width, b, ts);
    StageDest(db, g, now, slots, db.Dest(g) + GroupBySelect(src, from, to, width));
  }

  /** What one rollup stage leaves in each row it fills in: in every column the mean, in this sense, of the source
      rows in its bucket. */
  lemma StageRowIsMean(db: Db, g: Granularity, now: int, slots: nat, b: int, ts: int, s: SeriesId)
    requires 0 <= db.Mark(g) && db.Mark(g) % Width(g) == 0 && slots >= 1
    requires db.Mark(g) <= b < BucketStart(now, Width(g)) && b % Width(g) == 0
    requires ts in db.Source(g) && b <= ts < b + Width(g)
    ensures var after := RollupStage(db, g, now, slots).Dest(g);
            b in after && after[b].Column(s) == Mean(db.Source(g), b, b + Width(g), s)
  {
    StageRow(db, g, now, slots, b, ts);
    MeanRowColumn(db.Source(g), b, b + Width(g), s);
  }

  lemma StageDest(db: Db, g: Granularity, now: int, slots: nat, filled: Table)
    requires db.Mark(g) < BucketStart(now, Width(g)) && slots >= 1
    requires filled == db.Dest(g) + GroupBySelect(db.Source(g), db.Mark(g), BucketStart(now, Width(g)), Width(g))
    ensures RollupStage(db, g, now, slots).Dest(g) == filled
  {
    WithDestEffect(db, g, filled);
  }

  lemma TenSecRow(db: Db, now: int, slots: nat, b: int, ts: int)
    requires 0 <= db.Mark(TenSec) && db.Mark(TenSec) % Width(TenSec) == 0 && slots >= 1
    requires db.Mark(TenSec) <= b < BucketStart(now, Width(TenSec)) && b % Width(TenSec) == 0
    requires ts in db.raw && b <= ts < b + Width(TenSec)
    ensures var after := RollupSlots(db, now, slots).tenSec;
            b in after && after[b] == MeanRow(db.raw, b, b + Width(TenSec))
  {
    StageRow(db, TenSec, now, slots, b, ts);
    var db1 := RollupStage(db, TenSec, now, slots);
    var db2 := RollupStage(db1, OneMin, now, Less(slots, 2));
    StageEffect(db1, OneMin, now, Less(slots, 2));
    StageEffect(db2, FiveMin, now, Less(slots, 4));
    assert db1.Dest(TenSec) == RollupSlots(db, now, slots).Dest(TenSec);
  }

  lemma MeanRowOfTwo(t: Table, lo: int, hi: int, s: SeriesId, a: int, b: int)
    requires a < b && Readings(t, lo, hi, s) == {a, b}
    ensures a in t && b in t && t[a].Column(s).Some? && t[b].Column(s).Some? && lo <= a < hi
    ensures MeanRow(t, lo, hi).Column(s) == Some((t[a].Column(s).value + t[b].Column(s).value) / 2.0)
  {
    assert a in Readings(t, lo, hi, s) && b in Readings(t, lo, hi, s);
    MeanRowColumn(t, lo, hi, s);
    MeanOfTwo(t, lo, hi, s, a, b);
  }

  /** Two readings a 10s bucket holds come out of the rollup as their middle. */
  lemma TwoReadingsRollUp(db: Db, now: int, slots: nat, b: int, s: SeriesId, x: int, y: int)
    requires 0 <= db.Mark(TenSec) && db.Mark(TenSec) % Width(TenSec) == 0 && slots >= 1
    requires db.Mark(TenSec) <= b < BucketStart(now, Width(TenSec)) && b % Width(TenSec) == 0
    requires x < y && Readings(db.raw, b, b + Width(TenSec), s) == {x, y}
    ensures var after := RollupSlots(db, now, slots).tenSec;
            b in after && after[b].Column(s) == Some((db.raw[x].Column(s).value + db.raw[y].Column(s).value) / 2.0)
  {
    MeanRowOfTwo(db.raw, b, b + Width(TenSec), s, x, y);
    TenSecRow(db, now, slots, b, x);
  }
}
