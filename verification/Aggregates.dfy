/** SQL's AVG and GROUP BY over a table, and the one-shot view an incremental rollup must agree with. */
module Aggregates {
  import opened Options
  import opened Buckets
  import opened HistoryTypes

  predicate Present(t: Table, ts: int, s: SeriesId) {
    ts in t && t[ts].Column(s).Some?
  }

  function Sum(t: Table, lo: int, hi: int, s: SeriesId): real
    decreases hi - lo
  {
    if hi <= lo then 0.0
    else Sum(t, lo, hi - 1, s) + if Present(t, hi - 1, s) then t[hi - 1].Column(s).value else 0.0
  }

  function Count(t: Table, lo: int, hi: int, s: SeriesId): nat
    decreases hi - lo
  {
    if hi <= lo then 0
    else Count(t, lo, hi - 1, s) + if Present(t, hi - 1, s) then 1 else 0
  }

  /** AVG skips NULLs, and is NULL when nothing is left. */
  function Mean(t: Table, lo: int, hi: int, s: SeriesId): Option<real> {
    var n := Count(t, lo, hi, s);
    if n == 0 then None else Some(Sum(t, lo, hi, s) / n as real)
  }

  function MeanRow(t: Table, lo: int, hi: int): Row {
    Row(Mean(t, lo, hi, CpuPercent), Mean(t, lo, hi, MemUsedPercent), Mean(t, lo, hi, GpuPercent),
        Mean(t, lo, hi, DiskReadRate), Mean(t, lo, hi, DiskWriteRate),
        Mean(t, lo, hi, NetDownloadRate), Mean(t, lo, hi, NetUploadRate))
  }

  function GroupRows(src: Table, from: int, to: int, width: int, bucket: int): Table
    requires width > 0
  {
    map ts | ts in src && from <= ts < to && SqlBucket(ts, width) == bucket :: src[ts]
  }

  function Groups(src: Table, from: int, to: int, width: int): set<int>
    requires width > 0
  {
    set ts | ts in src && from <= ts < to :: SqlBucket(ts, width)
  }

  /** SELECT bucket, AVG(..) FROM src WHERE from <= ts AND ts < to GROUP BY bucket. */
  function GroupBySelect(src: Table, from: int, to: int, width: int): Table
    requires width > 0
  {
    map bucket | bucket in Groups(src, from, to, width) :: MeanRow(GroupRows(src, from, to, width, bucket), from, to)
  }

  function Starts(t: Table, width: int): set<int>
    requires width > 0
  {
    set ts | ts in t :: BucketStart(ts, width)
  }

  /** The one-shot aggregation of a whole table. */
  function View(t: Table, width: int): Table
    requires width > 0
  {
    map b | b in Starts(t, width) :: MeanRow(t, b, b + width)
  }

  lemma {:induction false} MeanFrame(t: Table, u: Table, lo: int, hi: int, s: SeriesId)
    requires AgreeOn(t, u, lo, hi)
    ensures Sum(t, lo, hi, s) == Sum(u, lo, hi, s) && Count(t, lo, hi, s) == Count(u, lo, hi, s)
    decreases hi - lo
  {
    if lo < hi {
      MeanFrame(t, u, lo, hi - 1, s);
    }
  }

  lemma MeanRowFrame(t: Table, u: Table, lo: int, hi: int)
    requires AgreeOn(t, u, lo, hi)
    ensures MeanRow(t, lo, hi) == MeanRow(u, lo, hi)
  {
    forall s: SeriesId ensures Mean(t, lo, hi, s) == Mean(u, lo, hi, s) {
      MeanFrame(t, u, lo, hi, s);
    }
  }

  /** Rows outside `[a, b)` contribute nothing when there are none. */
  lemma {:induction false} MeanNarrow(t: Table, lo: int, a: int, b: int, hi: int, s: SeriesId)
    requires lo <= a <= b <= hi
    requires forall ts | ts in t :: a <= ts < b
    ensures Sum(t, lo, hi, s) == Sum(t, a, b, s) && Count(t, lo, hi, s) == Count(t, a, b, s)
    decreases hi - lo
  {
    if b < hi {
      MeanNarrow(t, lo, a, b, hi - 1, s);
    } else if a < hi {
      if a < b - 1 || lo < a {
        MeanNarrowLast(t, lo, a, b, s);
      }
    } else {
      MeanEmpty(t, lo, hi, s);
    }
  }

  lemma {:induction false} MeanNarrowLast(t: Table, lo: int, a: int, b: int, s: SeriesId)
    requires lo <= a <= b
    requires forall ts | ts in t :: a <= ts
    ensures Sum(t, lo, b, s) == Sum(t, a, b, s) && Count(t, lo, b, s) == Count(t, a, b, s)
    decreases b - a
  {
    if a < b {
      MeanNarrowLast(t, lo, a, b - 1, s);
    } else {
      MeanEmpty(t, lo, b, s);
    }
  }

  lemma {:induction false} MeanEmpty(t: Table, lo: int, hi: int, s: SeriesId)
    requires forall ts | lo <= ts < hi :: ts !in t
    ensures Sum(t, lo, hi, s) == 0.0 && Count(t, lo, hi, s) == 0
    decreases hi - lo
  {
    if lo < hi {
      MeanEmpty(t, lo, hi - 1, s);
    }
  }

  /** A bucket is in the view exactly when it is aligned and some row falls inside it. */
  lemma InView(t: Table, width: int, b: int)
    requires width > 0
    ensures b in View(t, width) <==> b % width == 0 && exists ts :: ts in t && b <= ts < b + width
  {
    if b % width == 0 {
      forall ts | ts in t && b <= ts < b + width ensures b in View(t, width) {
        AlignedIsBucketStart(b, ts, width);
      }
    }
  }

  lemma ViewFrame(t: Table, u: Table, width: int, b: int)
    requires width > 0 && AgreeOn(t, u, b, b + width)
    ensures b in View(t, width) <==> b in View(u, width)
    ensures b in View(t, width) ==> View(t, width)[b] == View(u, width)[b]
  {
    InView(t, width, b);
    InView(u, width, b);
    MeanRowFrame(t, u, b, b + width);
  }

  /** Over an aligned, non-negative range the SQL statement computes exactly the buckets of the
      one-shot view that lie in that range. */
  lemma SelectIsView(src: Table, from: int, to: int, width: int)
    requires width > 0 && 0 <= from && from % width == 0 && to % width == 0
    ensures forall b :: b in GroupBySelect(src, from, to, width) <==> b in View(src, width) && from <= b < to
    ensures forall b | b in View(src, width) && from <= b < to ::
              GroupBySelect(src, from, to, width)[b] == View(src, width)[b]
  {
    forall b ensures b in Groups(src, from, to, width) <==> b in Starts(src, width) && from <= b < to {
      GroupsAreStarts(src, from, to, width, b);
    }
    forall b | b in View(src, width) && from <= b < to
      ensures GroupBySelect(src, from, to, width)[b] == View(src, width)[b]
    {
      InView(src, width, b);
      SelectRowIsViewRow(src, from, to, width, b);
    }
  }

  lemma GroupsAreStarts(src: Table, from: int, to: int, width: int, b: int)
    requires width > 0 && 0 <= from && from % width == 0 && to % width == 0
    ensures b in Groups(src, from, to, width) <==> b in Starts(src, width) && from <= b < to
  {
    if b in Groups(src, from, to, width) {
      var ts :| ts in src && from <= ts < to && SqlBucket(ts, width) == b;
      SqlBucketAgrees(ts, width);
      if BucketStart(ts, width) < from {
        AlignedGap(BucketStart(ts, width), from, width);
      }
    }
    if b in Starts(src, width) && from <= b < to {
      var ts :| ts in src && BucketStart(ts, width) == b;
      AlignedGap(b, to, width);
      SqlBucketAgrees(ts, width);
    }
  }

  lemma SelectRowIsViewRow(src: Table, from: int, to: int, width: int, b: int)
    requires width > 0 && 0 <= from <= b < to && to % width == 0
    requires b % width == 0
    ensures MeanRow(GroupRows(src, from, to, width, b), from, to) == MeanRow(src, b, b + width)
  {
    var rows := GroupRows(src, from, to, width, b);
    AlignedGap(b, to, width);
    forall ts | ts in src && from <= ts < to
      ensures SqlBucket(ts, width) == b <==> b <= ts < b + width
    {
      SqlBucketAgrees(ts, width);
      if b <= ts < b + width {
        AlignedIsBucketStart(b, ts, width);
      }
    }
    forall s: SeriesId ensures Mean(rows, from, to, s) == Mean(rows, b, b + width, s) {
      MeanNarrow(rows, from, b, b + width, to, s);
    }
    MeanRowFrame(rows, src, b, b + width);
  }

  /** A mean is missing exactly when every reading is, and otherwise lies between any bounds on the
      readings it averages. */
  lemma MeanHull(t: Table, lo: int, hi: int, s: SeriesId, min: real, max: real)
    requires forall ts | lo <= ts < hi && Present(t, ts, s) :: min <= t[ts].Column(s).value <= max
    ensures Mean(t, lo, hi, s).Some? <==> exists ts :: lo <= ts < hi && Present(t, ts, s)
    ensures Mean(t, lo, hi, s).Some? ==> min <= Mean(t, lo, hi, s).value <= max
  {
    SumBounds(t, lo, hi, s, min, max);
    CountPositive(t, lo, hi, s);
    if Count(t, lo, hi, s) > 0 {
      QuotientBounds(Sum(t, lo, hi, s), Count(t, lo, hi, s) as real, min, max);
    }
  }

  lemma QuotientBounds(sum: real, n: real, min: real, max: real)
    requires n > 0.0 && Scaled(min, n) <= sum <= Scaled(max, n)
    ensures min <= sum / n <= max
  {
    var m := sum / n;
    assert m * n == sum;
    ScaledMonotone(m, min, n);
    ScaledMonotone(max, m, n);
  }

  function Scaled(a: real, b: real): real { a * b }

  lemma ScaledMonotone(a: real, b: real, n: real)
    requires n > 0.0
    ensures a < b ==> a * n < b * n
  {
  }

  lemma {:induction false} SumBounds(t: Table, lo: int, hi: int, s: SeriesId, min: real, max: real)
    requires forall ts | lo <= ts < hi && Present(t, ts, s) :: min <= t[ts].Column(s).value <= max
    ensures Scaled(min, Count(t, lo, hi, s) as real) <= Sum(t, lo, hi, s) <= Scaled(max, Count(t, lo, hi, s) as real)
    decreases hi - lo
  {
    if lo < hi {
      SumBounds(t, lo, hi - 1, s, min, max);
      ScaledSuccessor(min, Count(t, lo, hi - 1, s));
      ScaledSuccessor(max, Count(t, lo, hi - 1, s));
    }
  }

  lemma ScaledSuccessor(m: real, n: nat)
    ensures Scaled(m, (n + 1) as real) == Scaled(m, n as real) + m
  {
  }

  lemma {:induction false} CountPositive(t: Table, lo: int, hi: int, s: SeriesId)
    ensures Count(t, lo, hi, s) > 0 <==> exists ts :: lo <= ts < hi && Present(t, ts, s)
    decreases hi - lo
  {
    if lo < hi {
      CountPositive(t, lo, hi - 1, s);
      if Present(t, hi - 1, s) {
        assert lo <= hi - 1 < hi;
      } else if Count(t, lo, hi - 1, s) > 0 {
        var ts :| lo <= ts < hi - 1 && Present(t, ts, s);
        assert lo <= ts < hi;
      }
    }
  }
}
