/** What the history store promises about whole runs. */
module HistoryTheorems {
  import opened Options
  import opened Buckets
  import opened HistoryTypes
  import opened Aggregates
  import opened HistoryDb
  import opened HistoryView

  /** Every raw sample ever handed to `insert_raw_batch`, late ones included. */
  function Inserted(events: seq<Event>): Table {
    if |events| == 0 then map[]
    else
      var before := Inserted(events[..|events| - 1]);
      match events[|events| - 1]
      case Insert(samples) => Upsert(before, samples)
      case _ => before
  }

  ghost predicate OnTime(samples: seq<HistorySample>, mark: int) {
    forall i | 0 <= i < |samples| :: samples[i].ts >= mark
  }

  ghost predicate InsertsOnTime(tr: Trace, events: seq<Event>) {
    |events| > 0 ==>
      && InsertsOnTime(tr, events[..|events| - 1])
      && (var e := events[|events| - 1];
          e.Insert? ==> OnTime(e.samples, Run(tr, events[..|events| - 1]).db.Mark(TenSec)))
  }

  /** The materialised view theorem. */
  lemma TablesAgreeWithOneShot(events: seq<Event>, g: Granularity)
    requires LegalRun(Fresh, events)
    ensures var tr := Run(Fresh, events);
            var view := Cascade(tr.onTime, g);
            && (forall b | b in tr.db.Dest(g) && b < tr.db.Mark(g) :: b in view && tr.db.Dest(g)[b] == view[b])
            && (forall b | b in view && tr.Cut(g) <= b < tr.db.Mark(g) :: b in tr.db.Dest(g))
  {
    FreshInv();
    RunKeepsInv(Fresh, events);
    var tr := Run(Fresh, events);
    assert LevelOk(tr.db.Dest(g), Cascade(tr.onTime, g), tr.db.Mark(g), tr.db.ConsumedTo(g), tr.Cut(g));
  }

  lemma {:induction false} OnTimeUpsertIsUpsert(t: Table, samples: seq<HistorySample>, mark: int)
    requires OnTime(samples, mark)
    ensures OnTimeUpsert(t, samples, mark) == Upsert(t, samples)
  {
    if |samples| > 0 {
      OnTimeUpsertIsUpsert(t, samples[..|samples| - 1], mark);
    }
  }

  /** When no batch arrives late, the view covers every raw row ever inserted. */
  lemma {:induction false} NoLateSamples(events: seq<Event>)
    requires InsertsOnTime(Fresh, events)
    ensures Run(Fresh, events).onTime == Inserted(events)
  {
    if |events| > 0 {
      var e := events[|events| - 1];
      NoLateSamples(events[..|events| - 1]);
      if e.Insert? {
        var mark := Run(Fresh, events[..|events| - 1]).db.Mark(TenSec);
        OnTimeUpsertIsUpsert(Inserted(events[..|events| - 1]), e.samples, mark);
      }
    }
  }

  /** For any run at all, and any clock: the watermarks stay non-negative, aligned and ordered, and
      never move back. */
  lemma {:induction false} RunKeepsMarks(tr: Trace, events: seq<Event>)
    requires MarksOk(tr.db)
    ensures MarksOk(Run(tr, events).db)
    ensures forall g: Granularity :: tr.db.Mark(g) <= Run(tr, events).db.Mark(g)
  {
    if |events| > 0 {
      var before := Run(tr, events[..|events| - 1]);
      RunKeepsMarks(tr, events[..|events| - 1]);
      match events[|events| - 1]
      case Insert(samples) =>
      case Rollup(now, slots) => RollupKeepsMarks(before.db, now, slots);
      case Retain(now, slots) => RetentionKeepsMarks(before.db, now, slots);
    }
  }

  /** Nor do they ever pass the clock: unless it started there, no watermark is later than every rollup so far. */
  lemma {:induction false} MarksNeverPassClock(tr: Trace, events: seq<Event>, g: Granularity)
    requires MarksOk(tr.db)
    ensures Run(tr, events).db.Mark(g) > tr.db.Mark(g) ==>
              exists e :: e in events && e.Rollup? && Run(tr, events).db.Mark(g) <= e.now
  {
    if |events| > 0 {
      var before, e := events[..|events| - 1], events[|events| - 1];
      var db := Run(tr, before).db;
      MarksNeverPassClock(tr, before, g);
      RunKeepsMarks(tr, before);
      assert e in events;
      match e
      case Insert(samples) => SameButRaw(db, samples, g);
      case Rollup(now, slots) => RollupKeepsMarks(db, now, slots);
      case Retain(now, slots) =>
        RetentionKeepsMarks(db, now, slots);
        SameMarks(db, RetentionSlots(db, now, slots));
      if Run(tr, before).db.Mark(g) > tr.db.Mark(g) {
        var e' :| e' in before && e'.Rollup? && Run(tr, before).db.Mark(g) <= e'.now;
        assert e' in events;
      }
    }
  }

  /** A bucket below the watermark is final in every run: its row may be pruned, but no later insert
      or rollup changes it or brings it into being. A sample inserted below the watermark is
      therefore lost to the rollups. */
  lemma {:induction false} ClosedBucketsAreFinal(tr: Trace, events: seq<Event>, g: Granularity, b: int)
    requires MarksOk(tr.db) && b < tr.db.Mark(g)
    ensures var after := Run(tr, events).db.Dest(g);
            b in after ==> b in tr.db.Dest(g) && after[b] == tr.db.Dest(g)[b]
  {
    if |events| > 0 {
      var before := Run(tr, events[..|events| - 1]);
      ClosedBucketsAreFinal(tr, events[..|events| - 1], g, b);
      RunKeepsMarks(tr, events[..|events| - 1]);
      match events[|events| - 1]
      case Insert(samples) =>
      case Rollup(now, slots) => RollupNeverTouchesClosedBuckets(before.db, now, slots, g, b);
      case Retain(now, slots) => RetentionTables(before.db, now, slots, g);
    }
  }

  // ----- retention

  /** Every row its next stage has not read yet is still there. */
  ghost predicate KeepsUnconsumed(db: Db, after: Db) {
    && (forall ts | ts in db.raw && ts >= db.Mark(TenSec) :: ts in after.raw)
    && (forall b | b in db.tenSec && b >= db.Mark(OneMin) :: b in after.tenSec)
    && (forall b | b in db.oneMin && b >= db.Mark(FiveMin) :: b in after.oneMin)
  }

  /** A complete retention pass keeps every unconsumed row exactly when none is past its cutoff and
      at most RAW_ROW_CAP raw rows wait above the watermark. */
  lemma RetentionKeepsUnconsumedIff(db: Db, now: int)
    ensures KeepsUnconsumed(db, RetentionDb(db, now)) <==> RetentionSafe(db, now)
  {
    var after := RetentionDb(db, now);
    RetentionTables(db, now, RETENTION_SLOTS, TenSec);
    RetentionTables(db, now, RETENTION_SLOTS, OneMin);
    RetentionRaw(db, now, RETENTION_SLOTS);
    if RetentionSafe(db, now) {
      RetentionKeepsRaw(db, now, RETENTION_SLOTS);
    }
    if KeepsUnconsumed(db, after) {
      CapKeepsOnlyIfFew(Prune(db.raw, now - RAW_MS), db.Mark(TenSec), RAW_ROW_CAP);
      assert Newer(Prune(db.raw, now - RAW_MS), db.Mark(TenSec) - 1) == Newer(db.raw, db.Mark(TenSec) - 1);
    }
  }

  lemma CapKeepsOnlyIfFew(t: Table, mark: int, cap: nat)
    requires forall ts | ts in t && ts >= mark :: ts in NewestRows(t, cap)
    ensures |Newer(t, mark - 1)| <= cap
  {
    var waiting := Newer(t, mark - 1);
    if waiting != {} {
      var least := LeastKey(waiting);
      assert waiting == Newer(t, least) + {least};
    }
  }

  /** Straight after a rollup that ran to its end at the same `now`, only the row cap can still make
      a retention pass lose anything. */
  lemma RetentionSafeAfterRollup(db: Db, now: int)
    ensures var after := RollupDb(db, now);
            RetentionSafe(after, now) <==> |Newer(after.raw, after.Mark(TenSec) - 1)| <= RAW_ROW_CAP
  {
    RollupReaches(db, now, TenSec);
    RollupReaches(db, now, OneMin);
    RollupReaches(db, now, FiveMin);
  }

  /** Every retention pass directly follows a rollup at the same `now` that ran to its end, with at most
      RAW_ROW_CAP raw rows left above the watermark. */
  ghost predicate Disciplined(events: seq<Event>) {
    |events| > 0 ==>
      && Disciplined(events[..|events| - 1])
      && (events[|events| - 1].Retain? ==>
            && |events| > 1 && events[|events| - 2] == Rollup(events[|events| - 1].now, ROLLUP_SLOTS)
            && (var db := Run(Fresh, events[..|events| - 1]).db; |Newer(db.raw, db.Mark(TenSec) - 1)| <= RAW_ROW_CAP))
  }

  lemma {:induction false} DisciplinedIsLegal(events: seq<Event>)
    requires Disciplined(events)
    ensures LegalRun(Fresh, events)
  {
    if |events| > 0 {
      var before, e := events[..|events| - 1], events[|events| - 1];
      DisciplinedIsLegal(before);
      if e.Retain? {
        var start := Run(Fresh, before[..|before| - 1]);
        assert before[|before| - 1] == Rollup(e.now, ROLLUP_SLOTS);
        assert Run(Fresh, before).db == RollupDb(start.db, e.now);
        RetentionSafeAfterRollup(start.db, e.now);
      }
    }
  }

  /** The view theorem for a disciplined run without late samples: every unpruned row below its
      watermark is the cascaded mean over all raw rows ever inserted, and no such row is missing. */
  lemma DisciplinedTablesAgree(events: seq<Event>, g: Granularity, b: int)
    requires Disciplined(events) && InsertsOnTime(Fresh, events)
    ensures var tr := Run(Fresh, events);
            var view := Cascade(Inserted(events), g);
            tr.Cut(g) <= b < tr.db.Mark(g) ==>
              (b in tr.db.Dest(g) <==> b in view) && (b in view ==> tr.db.Dest(g)[b] == view[b])
  {
    DisciplinedIsLegal(events);
    NoLateSamples(events);
    TablesAgreeWithOneShot(events, g);
  }

  lemma ThreeSteps(tr: Trace, e0: Event, e1: Event, e2: Event)
    ensures Run(tr, [e0, e1, e2]) == Step(Step(Step(tr, e0), e1), e2)
    ensures InsertsOnTime(tr, [e0, e1, e2])
              <== (e0.Insert? ==> OnTime(e0.samples, tr.db.Mark(TenSec))) && !e1.Insert? && !e2.Insert?
  {
    var events := [e0, e1, e2];
    assert events[..2] == [e0, e1] && [e0, e1][..1] == [e0] && [e0][..0] == [];
    assert Run(tr, []) == tr && InsertsOnTime(tr, []);
    assert Run(tr, [e0]) == Step(tr, e0);
    assert Run(tr, [e0, e1]) == Step(Step(tr, e0), e1);
    if (e0.Insert? ==> OnTime(e0.samples, tr.db.Mark(TenSec))) && !e1.Insert? && !e2.Insert? {
      assert InsertsOnTime(tr, [e0]);
      assert InsertsOnTime(tr, [e0, e1]);
    }
  }

  /** One sample, then a pruning pass thirty minutes later with no rollup before it, then a rollup. */
  function SkippedRollup(row: Row): seq<Event> {
    [Insert([HistorySample(0, row)]), Retain(RAW_MS + 1, RETENTION_SLOTS), Rollup(RAW_MS + 1, ROLLUP_SLOTS)]
  }

  /** Retention without that rollup loses data: the sample is pruned before any rollup saw it, and
      its closed 10s bucket stays empty although nothing was late. */
  lemma RetentionWithoutRollupLosesData(row: Row)
    ensures InsertsOnTime(Fresh, SkippedRollup(row))
    ensures var tr := Run(Fresh, SkippedRollup(row));
            0 in Cascade(tr.onTime, TenSec) && tr.Cut(TenSec) <= 0 < tr.db.Mark(TenSec) && 0 !in tr.db.tenSec
  {
    var e0, e1, e2 := SkippedRollup(row)[0], SkippedRollup(row)[1], SkippedRollup(row)[2];
    ThreeSteps(Fresh, e0, e1, e2);
    InsertOne(row);
    var tr0 := Step(Fresh, e0);
    var tr1 := Step(tr0, e1);
    RetentionRaw(tr0.db, RAW_MS + 1, RETENTION_SLOTS);
    RetentionTables(tr0.db, RAW_MS + 1, RETENTION_SLOTS, TenSec);
    RetentionKeepsMarks(tr0.db, RAW_MS + 1, RETENTION_SLOTS);
    assert tr1.db.raw == map[] && tr1.db.tenSec == map[] && tr1.onTime == map[0 := row];
    assert tr1.Cut(TenSec) == 0;
    RollupMarks(tr1.db, RAW_MS + 1, ROLLUP_SLOTS);
    RollupOfNothing(tr1.db, RAW_MS + 1);
    InView(tr1.onTime, Width(TenSec), 0);
  }

  lemma InsertOne(row: Row)
    ensures var tr := Step(Fresh, Insert([HistorySample(0, row)]));
            tr.db == EmptyDb.(raw := map[0 := row]) && tr.onTime == map[0 := row] && tr.cuts == map[]
  {
    assert [HistorySample(0, row)][..0] == [];
    assert Upsert(map[], []) == map[] == OnTimeUpsert(map[], [], 0);
  }

  lemma RollupOfNothing(db: Db, now: int)
    requires db.raw == map[] && db.tenSec == map[]
    ensures RollupDb(db, now).tenSec == map[]
  {
    var db1 := RollupStage(db, TenSec, now, ROLLUP_SLOTS);
    assert GroupBySelect(db.raw, db.Mark(TenSec), BucketStart(now, Width(TenSec)), Width(TenSec)) == map[];
    assert db1.tenSec == map[];
    StageEffect(db1, OneMin, now, Less(ROLLUP_SLOTS, 2));
    StageEffect(RollupStage(db1, OneMin, now, Less(ROLLUP_SLOTS, 2)), FiveMin, now, Less(ROLLUP_SLOTS, 4));
  }

  // ----- hull

  ghost predicate Seen(t: Table, lo: int, hi: int, s: SeriesId) {
    exists ts :: lo <= ts < hi && Present(t, ts, s)
  }

  ghost predicate Bounded(t: Table, lo: int, hi: int, s: SeriesId, min: real, max: real) {
    forall ts | lo <= ts < hi && Present(t, ts, s) :: min <= t[ts].Column(s).value <= max
  }

  ghost predicate Hull(v: Option<real>, t: Table, lo: int, hi: int, s: SeriesId, min: real, max: real) {
    && (v.Some? <==> Seen(t, lo, hi, s))
    && (v.Some? ==> min <= v.value <= max)
  }

  function Finer(g: Granularity): Granularity
    requires g != TenSec
  {
    if g == OneMin then TenSec else OneMin
  }

  lemma ViewColumn(t: Table, width: int, b: int, s: SeriesId)
    requires width > 0 && b in View(t, width)
    ensures b % width == 0 && View(t, width)[b].Column(s) == Mean(t, b, b + width, s)
  {
    InView(t, width, b);
  }

  /** A finer bucket that starts inside a coarser one ends inside it. */
  lemma FinerBucketInside(t: Table, g: Granularity, b: int, c: int)
    requires g != TenSec && b % Width(g) == 0
    requires c in Cascade(t, Finer(g)) && b <= c < b + Width(g)
    ensures c + Width(Finer(g)) <= b + Width(g)
  {
    InView(Below(t, Finer(g)), Width(Finer(g)), c);
    AlignedTo(b, Finer(g), g);
    AlignedGap(c, b + Width(g), Width(Finer(g)));
  }

  lemma FinerHulls(t: Table, g: Granularity, b: int, c: int, s: SeriesId, min: real, max: real)
    requires g != TenSec && b % Width(g) == 0 && Bounded(t, b, b + Width(g), s, min, max)
    requires c in Below(t, g) && b <= c < b + Width(g)
    ensures c + Width(Finer(g)) <= b + Width(g)
    ensures Hull(Below(t, g)[c].Column(s), t, c, c + Width(Finer(g)), s, min, max)
    decreases Rank(g), 0
  {
    FinerBucketInside(t, g, b, c);
    assert Below(t, g) == Cascade(t, Finer(g));
    CascadeHull(t, Finer(g), c, s, min, max);
  }

  lemma FinerMeans(t: Table, g: Granularity, b: int, s: SeriesId, min: real, max: real)
    requires g != TenSec && b % Width(g) == 0 && Bounded(t, b, b + Width(g), s, min, max)
    ensures Bounded(Below(t, g), b, b + Width(g), s, min, max)
    ensures Seen(Below(t, g), b, b + Width(g), s) <==> Seen(t, b, b + Width(g), s)
    decreases Rank(g), 2
  {
    var v, w := Below(t, g), Width(g);
    forall c | b <= c < b + w && Present(v, c, s) ensures min <= v[c].Column(s).value <= max {
      FinerHulls(t, g, b, c, s, min, max);
    }
    if Seen(v, b, b + w, s) {
      SeenBelow(t, g, b, s, min, max);
    }
    if Seen(t, b, b + w, s) {
      SeenAbove(t, g, b, s, min, max);
    }
  }

  lemma SeenBelow(t: Table, g: Granularity, b: int, s: SeriesId, min: real, max: real)
    requires g != TenSec && b % Width(g) == 0 && Bounded(t, b, b + Width(g), s, min, max)
    requires Seen(Below(t, g), b, b + Width(g), s)
    ensures Seen(t, b, b + Width(g), s)
    decreases Rank(g), 1
  {
    var c :| b <= c < b + Width(g) && Present(Below(t, g), c, s);
    FinerHulls(t, g, b, c, s, min, max);
    var ts :| c <= ts < c + Width(Finer(g)) && Present(t, ts, s);
    assert b <= ts < b + Width(g);
  }

  lemma SeenAbove(t: Table, g: Granularity, b: int, s: SeriesId, min: real, max: real)
    requires g != TenSec && b % Width(g) == 0 && Bounded(t, b, b + Width(g), s, min, max)
    requires Seen(t, b, b + Width(g), s)
    ensures Seen(Below(t, g), b, b + Width(g), s)
    decreases Rank(g), 1
  {
    var fine := Width(Finer(g));
    var ts :| b <= ts < b + Width(g) && Present(t, ts, s);
    var c := BucketStart(ts, fine);
    AlignedTo(b, Finer(g), g);
    AlignedAbove(b, ts, fine);
    CascadeCovers(t, Finer(g), ts);
    FinerHulls(t, g, b, c, s, min, max);
    assert Present(Below(t, g), c, s);
  }

  /** Through all its stages a rolled-up value stays between any bounds on the raw readings of that
      column in its bucket, and is missing exactly when they all are. */
  lemma {:induction false} CascadeHull(t: Table, g: Granularity, b: int, s: SeriesId, min: real, max: real)
    requires b in Cascade(t, g)
    requires Bounded(t, b, b + Width(g), s, min, max)
    ensures Hull(Cascade(t, g)[b].Column(s), t, b, b + Width(g), s, min, max)
    decreases Rank(g), 3
  {
    ViewColumn(Below(t, g), Width(g), b, s);
    if g != TenSec {
      FinerMeans(t, g, b, s, min, max);
    }
    MeanHull(Below(t, g), b, b + Width(g), s, min, max);
  }

  lemma AlignedTo(b: int, finer: Granularity, g: Granularity)
    requires (g == OneMin && finer == TenSec) || (g == FiveMin && finer == OneMin)
    requires b % Width(g) == 0
    ensures b % Width(finer) == 0 && (b + Width(g)) % Width(finer) == 0
  {
    if g == OneMin {
      MultipleOfMultiple(b, BUCKET_10S_MS, 6);
    } else {
      MultipleOfMultiple(b, BUCKET_1M_MS, 5);
    }
  }

  lemma MultipleOfMultiple(b: int, fine: int, ratio: int)
    requires fine > 0 && ratio > 0 && fine * ratio > 0 && b % (fine * ratio) == 0
    ensures b % fine == 0 && (b + fine * ratio) % fine == 0
  {
    var q := b / (fine * ratio);
    assert b == fine * ratio * q == q * ratio * fine;
    assert b + fine * ratio == (q * ratio + ratio) * fine;
    MultipleMod(q * ratio, fine);
    MultipleMod(q * ratio + ratio, fine);
  }

  lemma AlignedAbove(b: int, ts: int, width: int)
    requires width > 0 && b % width == 0 && b <= ts
    ensures b <= BucketStart(ts, width)
  {
    if BucketStart(ts, width) < b {
      AlignedGap(BucketStart(ts, width), b, width);
    }
  }

  lemma {:induction false} CascadeCovers(t: Table, g: Granularity, ts: int)
    requires ts in t
    ensures BucketStart(ts, Width(g)) in Cascade(t, g)
    decreases Rank(g)
  {
    if g != TenSec {
      var c := BucketStart(ts, Width(Finer(g)));
      CascadeCovers(t, Finer(g), ts);
      var b := BucketStart(ts, Width(g));
      AlignedTo(b, Finer(g), g);
      AlignedAbove(b, ts, Width(Finer(g)));
      InView(Cascade(t, Finer(g)), Width(g), b);
      assert c in Cascade(t, Finer(g)) && b <= c < b + Width(g);
    }
  }

  /** The hull theorem on what the store holds after a run. */
  lemma StoredValuesStayInHull(events: seq<Event>, g: Granularity, b: int, s: SeriesId, min: real, max: real)
    requires LegalRun(Fresh, events)
    requires b in Run(Fresh, events).db.Dest(g) && b < Run(Fresh, events).db.Mark(g)
    requires Bounded(Run(Fresh, events).onTime, b, b + Width(g), s, min, max)
    ensures Hull(Run(Fresh, events).db.Dest(g)[b].Column(s), Run(Fresh, events).onTime, b, b + Width(g), s, min, max)
  {
    TablesAgreeWithOneShot(events, g);
    CascadeHull(Run(Fresh, events).onTime, g, b, s, min, max);
  }
}
