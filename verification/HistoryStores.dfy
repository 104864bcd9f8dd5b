/** The store itself: methods that run SQL statements against the database they own. */
module HistoryStores {
  import opened Options
  import opened Arithmetic
  import opened Buckets
  import opened HistoryTypes
  import opened Aggregates
  import opened HistoryDb

  datatype HistoryError = DbError

  /** Both ends are inclusive. */
  datatype TimeRange = TimeRange(from: int, to: int)

  datatype HistoryPoint = HistoryPoint(ts: int, value: real)

  datatype TableName = SamplesRaw | SamplesRolled(g: Granularity)

  function Span(range: TimeRange): nat {
    if range.to < range.from then 0 else range.to - range.from
  }

  function TableForRange(range: TimeRange): TableName {
    if Span(range) <= RAW_MS then SamplesRaw
    else if Span(range) <= RETENTION_10S_MS then SamplesRolled(TenSec)
    else if Span(range) <= RETENTION_1M_MS then SamplesRolled(OneMin)
    else SamplesRolled(FiveMin)
  }

  function Named(db: Db, name: TableName): Table {
    match name
    case SamplesRaw => db.raw
    case SamplesRolled(g) => db.Dest(g)
  }

  /** SELECT ts, col FROM t WHERE lo <= ts AND ts <= hi AND col IS NOT NULL ORDER BY ts. */
  function SelectPoints(t: Table, lo: int, hi: int, s: SeriesId): seq<HistoryPoint>
    decreases hi - lo
  {
    if hi < lo then []
    else SelectPoints(t, lo, hi - 1, s) + if Present(t, hi, s) then [HistoryPoint(hi, t[hi].Column(s).value)] else []
  }

  /** Strictly increasing in time. */
  ghost predicate Increasing(points: seq<HistoryPoint>) {
    forall i, j | 0 <= i < j < |points| :: points[i].ts < points[j].ts
  }

  ghost predicate IsAnswer(points: seq<HistoryPoint>, t: Table, range: TimeRange, s: SeriesId) {
    && Increasing(points)
    && forall p :: p in points <==> range.from <= p.ts <= range.to && p.ts in t && t[p.ts].Column(s) == Some(p.value)
  }

  lemma {:induction false} SelectPointsAnswers(t: Table, lo: int, hi: int, s: SeriesId)
    ensures IsAnswer(SelectPoints(t, lo, hi, s), t, TimeRange(lo, hi), s)
    decreases hi - lo
  {
    if lo <= hi {
      SelectPointsAnswers(t, lo, hi - 1, s);
      var before := SelectPoints(t, lo, hi - 1, s);
      forall i | 0 <= i < |before| ensures before[i].ts < hi {
        assert before[i] in before;
      }
    }
  }

  /** Points of a table whose keys are bucket starts are at least one bucket apart. */
  lemma {:induction false} PointSpread(points: seq<HistoryPoint>, width: int)
    requires width > 0 && Increasing(points) && |points| > 0
    requires forall i | 0 <= i < |points| :: points[i].ts % width == 0
    ensures points[|points| - 1].ts >= points[0].ts + Times(|points| - 1, width)
  {
    var n := |points|;
    if n > 1 {
      PointSpread(points[..n - 1], width);
      AlignedGap(points[n - 2].ts, points[n - 1].ts, width);
      TimesSuccessor(n - 2, width);
    }
  }

  lemma PointBound(points: seq<HistoryPoint>, lo: int, hi: int, width: int)
    requires width > 0 && Increasing(points) && |points| > 0
    requires forall i | 0 <= i < |points| :: lo <= points[i].ts <= hi && points[i].ts % width == 0
    ensures |points| <= (hi - lo) / width + 1
  {
    PointSpread(points, width);
    TimesQuotient(|points| - 1, width, hi - lo);
  }

  /** A rollup that reported success. */
  predicate StageCompletes(db: Db, g: Granularity, now: int, slots: nat) {
    slots >= 2 || BucketStart(now, Width(g)) <= db.Mark(g)
  }

  function SlotsLeft(g: Granularity, slots: nat): nat {
    match g
    case TenSec => slots
    case OneMin => Less(slots, 2)
    case FiveMin => Less(slots, 4)
  }

  /** A rollup with a stage that failed is told from the complete one by that stage's watermark. */
  lemma FailedStageShows(db: Db, g: Granularity, now: int, slots: nat)
    requires !StageCompletes(db, g, now, SlotsLeft(g, slots))
    ensures RollupSlots(db, now, slots).Mark(g) != RollupDb(db, now).Mark(g)
  {
    RollupMarks(db, now, slots);
    RollupMarks(db, now, ROLLUP_SLOTS);
  }

  class HistoryStore {
    var db: Db

    constructor ()
      ensures db == EmptyDb
    {
      db := EmptyDb;
    }

    /** One transaction: every row or none. */
    method InsertRawBatch(samples: seq<HistorySample>, commits: bool) returns (r: Result<(), HistoryError>)
      modifies this
      ensures r.Ok? <==> commits
      ensures db == if commits then InsertBatch(old(db), samples) else old(db)
    {
      var raw := db.raw;
      for i := 0 to |samples|
        invariant raw == Upsert(db.raw, samples[..i]) && db == old(db)
      {
        raw := raw[samples[i].ts := samples[i].row];
        assert samples[..i + 1][..i] == samples[..i];
      }
      assert samples[..|samples|] == samples;
      if !commits {
        return Err(DbError);
      }
      db := db.(raw := raw);
      return Ok(());
    }

    /** `slots` statements run before the database starts refusing writes. */
    method RollupInto(g: Granularity, now: int, slots: nat) returns (r: Result<(), HistoryError>)
      modifies this
      ensures db == RollupStage(old(db), g, now, slots)
      ensures r.Ok? <==> StageCompletes(old(db), g, now, slots)
    {
      var from, to := db.Mark(g), BucketStart(now, Width(g));
      if to <= from {
        return Ok(());
      }
      if slots == 0 {
        return Err(DbError);
      }
      db := db.WithDest(g, db.Dest(g) + GroupBySelect(db.Source(g), from, to, Width(g)));
      if slots == 1 {
        return Err(DbError);
      }
      db := db.(marks := db.marks[g := to]);
      return Ok(());
    }

    /** Stops at the first stage that fails, and reports success exactly when it left what the complete rollup
        leaves, whatever `slots` was. */
    method Rollup(now: int, slots: nat) returns (r: Result<(), HistoryError>)
      modifies this
      ensures db == RollupSlots(old(db), now, slots)
      ensures r.Ok? <==> db == RollupDb(old(db), now)
    {
      ghost var before := db;
      StageEffect(before, TenSec, now, slots);
      r := RollupInto(TenSec, now, slots);
      if r.Err? {
        FailedStageShows(before, TenSec, now, slots);
        return;
      }
      StageEffect(db, OneMin, now, Less(slots, 2));
      r := RollupInto(OneMin, now, Less(slots, 2));
      if r.Err? {
        FailedStageShows(before, OneMin, now, slots);
        return;
      }
      r := RollupInto(FiveMin, now, Less(slots, 4));
      if r.Err? {
        FailedStageShows(before, FiveMin, now, slots);
      }
    }

    method PruneTable(name: TableName, cutoff: int)
      modifies this
      ensures db == match name
                    case SamplesRaw => old(db).(raw := Prune(old(db).raw, cutoff))
                    case SamplesRolled(g) => old(db).WithDest(g, Prune(old(db).Dest(g), cutoff))
    {
      match name
      case SamplesRaw => db := db.(raw := Prune(db.raw, cutoff));
      case SamplesRolled(g) => db := db.WithDest(g, Prune(db.Dest(g), cutoff));
    }

    method ApplyRetention(now: int, slots: nat) returns (r: Result<(), HistoryError>)
      modifies this
      ensures db == RetentionSlots(old(db), now, slots)
      ensures r.Ok? <==> slots >= RETENTION_SLOTS
    {
      if slots < 1 {
        return Err(DbError);
      }
      PruneTable(SamplesRaw, now - RAW_MS);
      if slots < 2 {
        return Err(DbError);
      }
      PruneTable(SamplesRolled(TenSec), now - RETENTION_10S_MS);
      if slots < 3 {
        return Err(DbError);
      }
      PruneTable(SamplesRolled(OneMin), now - RETENTION_1M_MS);
      if slots < 4 {
        return Err(DbError);
      }
      PruneTable(SamplesRolled(FiveMin), now - RETENTION_5M_MS);
      if slots < 5 {
        return Err(DbError);
      }
      db := db.(raw := NewestRows(db.raw, RAW_ROW_CAP));
      return Ok(());
    }

    /** Exactly the non-NULL rows of the chosen table in the inclusive range, oldest first. */
    method Query(range: TimeRange, s: SeriesId) returns (points: seq<HistoryPoint>)
      ensures points == SelectPoints(Named(db, TableForRange(range)), range.from, range.to, s)
      ensures IsAnswer(points, Named(db, TableForRange(range)), range, s)
    {
      var table := Named(db, TableForRange(range));
      SelectPointsAnswers(table, range.from, range.to, s);
      points := SelectPoints(table, range.from, range.to, s);
    }
  }
}
