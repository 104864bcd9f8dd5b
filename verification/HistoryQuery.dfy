/** What a history query returns after a whole run. */
module HistoryQuery {
  import opened Options
  import opened Arithmetic
  import opened Buckets
  import opened HistoryTypes
  import opened Aggregates
  import opened HistoryDb
  import opened HistoryView
  import opened HistoryTheorems
  import opened HistoryRaw
  import opened HistoryStores

  /** No retention pass so far ran at a later instant. */
  ghost predicate RetainedBy(events: seq<Event>, instant: int) {
    forall e | e in events && e.Retain? :: e.now <= instant
  }

  /** The chosen table is the finest one that covers the range. Up to thirty days no pass by its end pruned the
      table beyond its start; and any table that keeps rows for less time would, after a complete pass at the
      end of the range, hold nothing as old as its start. */
  lemma ChosenTableIsFinestThatCovers(events: seq<Event>, range: TimeRange, db: Db, other: TableName, ts: int)
    requires RetainedBy(events, range.to)
    ensures range.from <= range.to && Span(range) <= RETENTION_5M_MS ==>
              PrunedTo(events, TableForRange(range), range.from)
    ensures KeptFor(other) < KeptFor(TableForRange(range)) && ts in Named(RetentionDb(db, range.to), other) ==>
              ts > range.from
  {
    RetentionRaw(db, range.to, RETENTION_SLOTS);
    if other.SamplesRolled? {
      RetentionTables(db, range.to, RETENTION_SLOTS, other.g);
    }
  }

  lemma {:induction false} CutBound(events: seq<Event>, lo: int, g: Granularity)
    requires PrunedTo(events, SamplesRolled(g), lo)
    ensures 0 <= Run(Fresh, events).Cut(g) <= Max(0, lo)
  {
    if |events| > 0 {
      var e := events[|events| - 1];
      var before := Run(Fresh, events[..|events| - 1]);
      CutBound(events[..|events| - 1], lo, g);
      assert e in events;
      assert Run(Fresh, events) == Step(before, e);
      StepCut(before, e, g);
    }
  }

  lemma StepCut(tr: Trace, e: Event, g: Granularity)
    ensures tr.Cut(g) <= Step(tr, e).Cut(g)
    ensures Step(tr, e).Cut(g)
              <= if e.Retain? && e.slots >= PruneSlot(g) then Max(tr.Cut(g), e.now - RetentionOf(g)) else tr.Cut(g)
  {
    match e
    case Insert(samples) =>
    case Rollup(now, slots) =>
    case Retain(now, slots) => assert g in {TenSec, OneMin, FiveMin};
  }

  lemma {:induction false} OnTimeUpsertNonNegative(t: Table, samples: seq<HistorySample>, mark: int)
    requires mark >= 0 && forall ts | ts in t :: ts >= 0
    ensures forall ts | ts in OnTimeUpsert(t, samples, mark) :: ts >= 0
  {
    if |samples| > 0 {
      OnTimeUpsertNonNegative(t, samples[..|samples| - 1], mark);
    }
  }

  lemma {:induction false} OnTimeNonNegative(events: seq<Event>)
    ensures forall ts | ts in Run(Fresh, events).onTime :: ts >= 0
  {
    if |events| > 0 {
      OnTimeNonNegative(events[..|events| - 1]);
      FreshInv();
      RunKeepsMarks(Fresh, events[..|events| - 1]);
      var before := Run(Fresh, events[..|events| - 1]);
      match events[|events| - 1]
      case Insert(samples) => OnTimeUpsertNonNegative(before.onTime, samples, before.db.Mark(TenSec));
      case Rollup(now, slots) =>
      case Retain(now, slots) =>
    }
  }

  lemma {:induction false} CascadeNonNegative(t: Table, g: Granularity, b: int)
    requires (forall ts | ts in t :: ts >= 0) && b in Cascade(t, g)
    ensures b >= 0
    decreases Rank(g)
  {
    InView(Below(t, g), Width(g), b);
    var c :| c in Below(t, g) && b <= c < b + Width(g);
    if g != TenSec {
      CascadeNonNegative(t, Finer(g), c);
    }
    if b < 0 {
      AlignedGap(b, 0, Width(g));
    }
  }

  /** A rollup that stopped after this stage's INSERT .. SELECT and before its watermark. */
  predicate Tears(e: Event, g: Granularity) {
    e.Rollup? && e.slots == 2 * Rank(g) + 1
  }

  lemma StageBelowMark(db: Db, g: Granularity, now: int, slots: nat)
    requires 0 <= db.Mark(g) && db.Mark(g) % Width(g) == 0 && slots != 1
    requires forall b | b in db.Dest(g) :: b < db.Mark(g)
    ensures var after := RollupStage(db, g, now, slots);
            forall b | b in after.Dest(g) :: b < after.Mark(g)
  {
    var to := BucketStart(now, Width(g));
    StageEffect(db, g, now, slots);
    WithDestEffect(db, g, db.Dest(g) + GroupBySelect(db.Source(g), db.Mark(g), to, Width(g)));
    SelectIsView(db.Source(g), db.Mark(g), to, Width(g));
  }

  lemma RollupBelowMark(db: Db, now: int, slots: nat, g: Granularity)
    requires MarksOk(db) && !Tears(Rollup(now, slots), g)
    requires forall b | b in db.Dest(g) :: b < db.Mark(g)
    ensures var after := RollupSlots(db, now, slots);
            forall b | b in after.Dest(g) :: b < after.Mark(g)
  {
    var db1 := RollupStage(db, TenSec, now, slots);
    var db2 := RollupStage(db1, OneMin, now, Less(slots, 2));
    StageEffect(db, TenSec, now, slots);
    StageEffect(db1, OneMin, now, Less(slots, 2));
    StageEffect(db2, FiveMin, now, Less(slots, 4));
    match g
    case TenSec => StageBelowMark(db, g, now, slots);
    case OneMin => StageBelowMark(db1, g, now, Less(slots, 2));
    case FiveMin => StageBelowMark(db2, g, now, Less(slots, 4));
  }

  /** Only a torn rollup leaves rows at or above the watermark. */
  lemma {:induction false} RowsAboveMarkAreTorn(events: seq<Event>, g: Granularity)
    ensures (exists b :: b in Run(Fresh, events).db.Dest(g) && b >= Run(Fresh, events).db.Mark(g)) ==>
              exists e :: e in events && Tears(e, g)
  {
    if |events| > 0 && !exists e :: e in events && Tears(e, g) {
      var before, e := events[..|events| - 1], events[|events| - 1];
      var db := Run(Fresh, before).db;
      RowsAboveMarkAreTorn(before, g);
      FreshInv();
      RunKeepsMarks(Fresh, before);
      assert e in events && !Tears(e, g);
      match e
      case Insert(samples) => SameButRaw(db, samples, g);
      case Rollup(now, slots) => RollupBelowMark(db, now, slots, g);
      case Retain(now, slots) =>
        RetentionTables(db, now, slots, g);
        RetentionKeepsMarks(db, now, slots);
        SameMarks(db, RetentionSlots(db, now, slots));
    }
  }

  lemma CoveredNotCut(events: seq<Event>, range: TimeRange, b: int)
    requires RetainedBy(events, range.to) && TableForRange(range).SamplesRolled? && Span(range) <= RETENTION_5M_MS
    requires b in Cascade(Run(Fresh, events).onTime, TableForRange(range).g) && range.from <= b <= range.to
    ensures Run(Fresh, events).Cut(TableForRange(range).g) <= b
  {
    var tr, g := Run(Fresh, events), TableForRange(range).g;
    OnTimeNonNegative(events);
    CascadeNonNegative(tr.onTime, g, b);
    ChosenTableIsFinestThatCovers(events, range, tr.db, SamplesRaw, b);
    CutBound(events, range.from, g);
  }

  lemma RowsOfView(events: seq<Event>, g: Granularity, b: int)
    requires LegalRun(Fresh, events)
    ensures b in Run(Fresh, events).db.Dest(g) ==> b in Cascade(Run(Fresh, events).onTime, g)
  {
    FreshInv();
    RunKeepsInv(Fresh, events);
    var tr := Run(Fresh, events);
    assert LevelOk(tr.db.Dest(g), Cascade(tr.onTime, g), tr.db.Mark(g), tr.db.ConsumedTo(g), tr.Cut(g));
  }

  /** A query for a range the rollup tables serve that ends no earlier than the last retention pass answers from
      everything ever recorded on time: it returns a bucket exactly when it is closed and the one-shot cascade has a
      value there, and returns that value. Only where a rollup was torn can it return a point above the watermark
      too, and then for a bucket the cascade also has. */
  lemma RolledQueryAnswers(events: seq<Event>, range: TimeRange, s: SeriesId, p: HistoryPoint)
    requires LegalRun(Fresh, events) && RetainedBy(events, range.to)
    requires TableForRange(range).SamplesRolled? && Span(range) <= RETENTION_5M_MS
    ensures var tr := Run(Fresh, events);
            var g := TableForRange(range).g;
            var returned := p in SelectPoints(tr.db.Dest(g), range.from, range.to, s);
            var expected := range.from <= p.ts <= range.to && p.ts < tr.db.Mark(g)
                            && p.ts in Cascade(tr.onTime, g) && Cascade(tr.onTime, g)[p.ts].Column(s) == Some(p.value);
            && (expected ==> returned)
            && (returned && !expected ==>
                  && (exists e :: e in events && Tears(e, g))
                  && tr.db.Mark(g) <= p.ts && range.from <= p.ts <= range.to && p.ts in Cascade(tr.onTime, g))
  {
    var tr := Run(Fresh, events);
    var g := TableForRange(range).g;
    SelectPointsAnswers(tr.db.Dest(g), range.from, range.to, s);
    TablesAgreeWithOneShot(events, g);
    RowsOfView(events, g, p.ts);
    RowsAboveMarkAreTorn(events, g);
    if range.from <= p.ts <= range.to && p.ts in Cascade(tr.onTime, g) {
      CoveredNotCut(events, range, p.ts);
    }
  }

  /** Without torn rollups that is an exact answer, whatever the range. */
  lemma RolledQueryIsExact(events: seq<Event>, range: TimeRange, s: SeriesId, p: HistoryPoint)
    requires LegalRun(Fresh, events) && RetainedBy(events, range.to)
    requires TableForRange(range).SamplesRolled? && Span(range) <= RETENTION_5M_MS
    requires forall e | e in events :: !Tears(e, TableForRange(range).g)
    ensures var tr := Run(Fresh, events);
            var g := TableForRange(range).g;
            p in SelectPoints(tr.db.Dest(g), range.from, range.to, s) <==>
            (range.from <= p.ts <= range.to && p.ts < tr.db.Mark(g)
             && p.ts in Cascade(tr.onTime, g) && Cascade(tr.onTime, g)[p.ts].Column(s) == Some(p.value))
  {
    RolledQueryAnswers(events, range, s, p);
  }

  /** A query for a range the raw table serves that ends no earlier than the last retention pass answers, after
      any run at all, from everything ever inserted as far as the row cap left it, late samples included. */
  lemma RawQueryAnswers(events: seq<Event>, range: TimeRange, s: SeriesId, p: HistoryPoint)
    requires RetainedBy(events, range.to) && TableForRange(range) == SamplesRaw
    ensures p in SelectPoints(Run(Fresh, events).db.raw, range.from, range.to, s) <==>
            (range.from <= p.ts <= range.to
             && p.ts in Capped(events) && Capped(events)[p.ts].Column(s) == Some(p.value))
  {
    SelectPointsAnswers(Run(Fresh, events).db.raw, range.from, range.to, s);
    if range.from <= range.to {
      ChosenTableIsFinestThatCovers(events, range, Run(Fresh, events).db, SamplesRaw, p.ts);
      RawIsCapped(events, range.from);
    }
  }

  /** Unless the cap bit inside the range, that is everything ever inserted. */
  lemma RawQueryAnswersEverything(events: seq<Event>, range: TimeRange, s: SeriesId, p: HistoryPoint)
    requires RetainedBy(events, range.to) && TableForRange(range) == SamplesRaw
    requires |Newer(InsertedAtCap(events), range.from - 1)| <= RAW_ROW_CAP
    ensures p in SelectPoints(Run(Fresh, events).db.raw, range.from, range.to, s) <==>
            (range.from <= p.ts <= range.to
             && p.ts in Inserted(events) && Inserted(events)[p.ts].Column(s) == Some(p.value))
  {
    RawQueryAnswers(events, range, s, p);
    CappedIsComplete(events, range.from);
  }

  /** Right after a complete pass it is the newest RAW_ROW_CAP rows of everything ever inserted. */
  lemma RawQueryAfterPass(events: seq<Event>, now: int, range: TimeRange, s: SeriesId, p: HistoryPoint)
    requires RetainedBy(events, range.to) && now <= range.to && TableForRange(range) == SamplesRaw
    ensures var all := events + [Retain(now, RETENTION_SLOTS)];
            p in SelectPoints(Run(Fresh, all).db.raw, range.from, range.to, s) <==>
            (range.from <= p.ts <= range.to && p.ts in Inserted(events) && |Newer(Inserted(events), p.ts)| < RAW_ROW_CAP
             && Inserted(events)[p.ts].Column(s) == Some(p.value))
  {
    var e := Retain(now, RETENTION_SLOTS);
    var all := events + [e];
    assert all[..|all| - 1] == events && all[|all| - 1] == e;
    assert CapsRaw(e);
    RawQueryAnswers(all, range, s, p);
  }

  /** Over the last thirty minutes there is a row every `gap` ms, the newest one now. */
  ghost predicate Regular(t: Table, now: int, gap: int)
    requires gap > 0
  {
    forall ts | ts >= now - RAW_MS :: ts in t <==> ts <= now && (now - ts) % gap == 0
  }

  lemma OneMoreNewer(t: Table, now: int, gap: int, age: nat, from: int)
    requires gap > 0 && Regular(t, now, gap) && age % gap == 0 && age + gap <= RAW_MS && from == now - age - gap
    ensures Newer(t, from) == Newer(t, now - age) + {now - age}
  {
    var wide := Newer(t, from);
    forall ts | ts in wide && ts < now - age ensures false {
      AlignedGap(age, now - ts, gap);
    }
    assert now - age in t;
  }

  lemma {:induction false} RegularCount(t: Table, now: int, gap: int, k: nat)
    requires gap > 0 && Regular(t, now, gap) && Times(k, gap) <= RAW_MS
    ensures |Newer(t, now - Times(k, gap))| == k
  {
    if k == 0 {
      assert Newer(t, now) == {};
    } else {
      TimesSuccessor(k - 1, gap);
      TimesNonNegative(k - 1, gap);
      MultipleMod(k - 1, gap);
      RegularCount(t, now, gap, k - 1);
      OneMoreNewer(t, now, gap, Times(k - 1, gap), now - Times(k, gap));
    }
  }

  /** With a sample every `gap` ms, a query right after a complete pass for the thirty minutes up to it returns the
      readings up to the cap and no older one. */
  lemma RegularRawQuery(events: seq<Event>, now: int, gap: int, k: nat, s: SeriesId, value: real)
    requires gap > 0 && RetainedBy(events, now) && Regular(Inserted(events), now, gap) && Times(k, gap) <= RAW_MS
    requires var ts := now - Times(k, gap); ts in Inserted(events) ==> Inserted(events)[ts].Column(s) == Some(value)
    ensures var all := events + [Retain(now, RETENTION_SLOTS)];
            HistoryPoint(now - Times(k, gap), value) in SelectPoints(Run(Fresh, all).db.raw, now - RAW_MS, now, s) <==>
            k < RAW_ROW_CAP
  {
    var ts := now - Times(k, gap);
    RegularCount(Inserted(events), now, gap, k);
    MultipleMod(k, gap);
    TimesNonNegative(k, gap);
    assert ts in Inserted(events);
    RawQueryAfterPass(events, now, TimeRange(now - RAW_MS, now), s, HistoryPoint(ts, value));
  }

  /** The paces at which all samples of thirty minutes are under the cap. */
  lemma CapCovers(gap: int)
    requires gap > 0
    ensures (forall k: nat | Times(k, gap) <= RAW_MS :: k < RAW_ROW_CAP) <==> gap > 450
  {
    if gap <= 450 {
      TimesMonotoneRight(RAW_ROW_CAP, gap, 450);
    } else {
      forall k: nat | Times(k, gap) <= RAW_MS ensures k < RAW_ROW_CAP {
        TimesQuotient(k, gap, RAW_MS);
        if k >= RAW_ROW_CAP {
          TimesMonotoneRight(RAW_ROW_CAP, 451, gap);
          TimesMonotone(RAW_ROW_CAP, k, gap);
        }
      }
    }
  }

  /** A query right after a complete pass misses nothing of the thirty minutes up to it. */
  ghost predicate CoversThirtyMinutes(events: seq<Event>, now: int, s: SeriesId) {
    var t := Inserted(events);
    var answer := SelectPoints(Run(Fresh, events + [Retain(now, RETENTION_SLOTS)]).db.raw, now - RAW_MS, now, s);
    forall ts | ts in t && now - RAW_MS <= ts && t[ts].Column(s).Some? ::
      HistoryPoint(ts, t[ts].Column(s).value) in answer
  }

  lemma RegularAge(t: Table, now: int, gap: int, ts: int) returns (k: nat)
    requires gap > 0 && Regular(t, now, gap) && ts in t && now - RAW_MS <= ts
    ensures ts == now - Times(k, gap) && Times(k, gap) <= RAW_MS
  {
    k := (now - ts) / gap;
  }

  /** So with a reading every `gap` ms the raw table covers its thirty minutes exactly at paces slower than one
      sample in 450 ms. */
  lemma RawTableCoversIff(events: seq<Event>, now: int, gap: int, s: SeriesId)
    requires gap > 0 && RetainedBy(events, now) && Regular(Inserted(events), now, gap)
    requires forall ts | ts in Inserted(events) && now - RAW_MS <= ts :: Inserted(events)[ts].Column(s).Some?
    ensures CoversThirtyMinutes(events, now, s) <==> gap > 450
  {
    var t := Inserted(events);
    CapCovers(gap);
    if gap > 450 {
      forall ts | ts in t && now - RAW_MS <= ts && t[ts].Column(s).Some?
        ensures HistoryPoint(ts, t[ts].Column(s).value) in
                  SelectPoints(Run(Fresh, events + [Retain(now, RETENTION_SLOTS)]).db.raw, now - RAW_MS, now, s)
      {
        var k := RegularAge(t, now, gap, ts);
        RegularRawQuery(events, now, gap, k, s, t[ts].Column(s).value);
      }
    } else {
      var k: nat :| Times(k, gap) <= RAW_MS && k >= RAW_ROW_CAP;
      var ts := now - Times(k, gap);
      MultipleMod(k, gap);
      TimesNonNegative(k, gap);
      assert ts in t;
      RegularRawQuery(events, now, gap, k, s, t[ts].Column(s).value);
    }
  }

  /** Whatever the range and the clocks of the retention passes, as long as those are safe a raw query misses no
      on-time sample that no rollup has consumed yet. */
  lemma RawQueryAnswersUnconsumed(events: seq<Event>, range: TimeRange, s: SeriesId, p: HistoryPoint)
    requires LegalRun(Fresh, events) && Run(Fresh, events).db.Mark(TenSec) <= p.ts
    ensures var tr := Run(Fresh, events);
            p in SelectPoints(tr.db.raw, range.from, range.to, s) <==>
            (range.from <= p.ts <= range.to && p.ts in tr.onTime && tr.onTime[p.ts].Column(s) == Some(p.value))
  {
    FreshInv();
    RunKeepsInv(Fresh, events);
    SelectPointsAnswers(Run(Fresh, events).db.raw, range.from, range.to, s);
  }

  ghost predicate KeysAligned(db: Db) {
    forall g: Granularity, b | b in db.Dest(g) :: b % Width(g) == 0
  }

  lemma StageKeepsAligned(db: Db, g: Granularity, now: int, slots: nat)
    requires KeysAligned(db) && 0 <= db.Mark(g) && db.Mark(g) % Width(g) == 0
    ensures KeysAligned(RollupStage(db, g, now, slots))
  {
    var after, to := RollupStage(db, g, now, slots), BucketStart(now, Width(g));
    StageEffect(db, g, now, slots);
    WithDestEffect(db, g, db.Dest(g) + GroupBySelect(db.Source(g), db.Mark(g), to, Width(g)));
    SelectIsView(db.Source(g), db.Mark(g), to, Width(g));
    forall h: Granularity, b | b in after.Dest(h) ensures b % Width(h) == 0 {
      if h == g && b !in db.Dest(g) {
        InView(db.Source(g), Width(g), b);
      }
    }
  }

  lemma RollupKeepsAligned(db: Db, now: int, slots: nat)
    requires MarksOk(db) && KeysAligned(db)
    ensures KeysAligned(RollupSlots(db, now, slots))
  {
    var db1 := RollupStage(db, TenSec, now, slots);
    var db2 := RollupStage(db1, OneMin, now, Less(slots, 2));
    StageEffect(db, TenSec, now, slots);
    StageEffect(db1, OneMin, now, Less(slots, 2));
    StageKeepsAligned(db, TenSec, now, slots);
    StageKeepsAligned(db1, OneMin, now, Less(slots, 2));
    StageKeepsAligned(db2, FiveMin, now, Less(slots, 4));
  }

  lemma {:induction false} RunKeepsAligned(events: seq<Event>)
    ensures KeysAligned(Run(Fresh, events).db)
  {
    if |events| > 0 {
      var before := Run(Fresh, events[..|events| - 1]);
      RunKeepsAligned(events[..|events| - 1]);
      match events[|events| - 1]
      case Insert(samples) =>
        forall g: Granularity, b | b in Step(before, Insert(samples)).db.Dest(g) ensures b % Width(g) == 0 {
          SameButRaw(before.db, samples, g);
        }
      case Rollup(now, slots) =>
        FreshInv();
        RunKeepsMarks(Fresh, events[..|events| - 1]);
        RollupKeepsAligned(before.db, now, slots);
      case Retain(now, slots) =>
        forall g: Granularity, b | b in Step(before, Retain(now, slots)).db.Dest(g) ensures b % Width(g) == 0 {
          RetentionTables(before.db, now, slots, g);
        }
    }
  }

  /** A rollup query returns at most one point per bucket of the range, after any run at all. */
  lemma RollupQueryIsSmall(events: seq<Event>, range: TimeRange, s: SeriesId)
    requires TableForRange(range).SamplesRolled?
    ensures var g := TableForRange(range).g;
            |SelectPoints(Run(Fresh, events).db.Dest(g), range.from, range.to, s)| <= Span(range) / Width(g) + 1
  {
    var g := TableForRange(range).g;
    var table := Run(Fresh, events).db.Dest(g);
    var points := SelectPoints(table, range.from, range.to, s);
    RunKeepsAligned(events);
    SelectPointsAnswers(table, range.from, range.to, s);
    forall i | 0 <= i < |points|
      ensures range.from <= points[i].ts <= range.to && points[i].ts % Width(g) == 0
    {
      assert points[i] in points;
    }
    if |points| > 0 {
      PointBound(points, range.from, range.to, Width(g));
    }
  }

  /** The points a field with this reading makes. */
  function PointOf(ts: int, field: Option<real>): seq<HistoryPoint> {
    match field
    case None => []
    case Some(value) => [HistoryPoint(ts, value)]
  }

  lemma InstantQuery(t: Table, ts: int, s: SeriesId)
    requires ts in t
    ensures SelectPoints(t, ts, ts, s) == PointOf(ts, t[ts].Column(s))
  {
    assert SelectPoints(t, ts, ts - 1, s) == [];
  }

  /** Each field of a sample comes back from a query of its own series, at the sample's instant. */
  lemma FieldsComeBack(db: Db, sample: HistorySample)
    ensures var t, ts, row := InsertBatch(db, [sample]).raw, sample.ts, sample.row;
            && SelectPoints(t, ts, ts, CpuPercent) == PointOf(ts, row.cpuPercent)
            && SelectPoints(t, ts, ts, MemUsedPercent) == PointOf(ts, row.memUsedPercent)
            && SelectPoints(t, ts, ts, GpuPercent) == PointOf(ts, row.gpuPercent)
            && SelectPoints(t, ts, ts, DiskReadRate) == PointOf(ts, row.diskReadRate)
            && SelectPoints(t, ts, ts, DiskWriteRate) == PointOf(ts, row.diskWriteRate)
            && SelectPoints(t, ts, ts, NetDownloadRate) == PointOf(ts, row.netDownloadRate)
            && SelectPoints(t, ts, ts, NetUploadRate) == PointOf(ts, row.netUploadRate)
  {
    var t := InsertBatch(db, [sample]).raw;
    assert [sample][..0] == [];
    assert Upsert(db.raw, []) == db.raw;
    assert t == db.raw[sample.ts := sample.row];
    forall s: SeriesId ensures SelectPoints(t, sample.ts, sample.ts, s) == PointOf(sample.ts, sample.row.Column(s)) {
      InstantQuery(t, sample.ts, s);
    }
  }
}
