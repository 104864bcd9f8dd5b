/** The rollup tables as an incrementally maintained view: over any run of batch inserts, complete or
    torn rollups and safe retention passes, each unpruned row below its watermark is the row a
    one-shot aggregation of every on-time raw sample would give. */
module HistoryView {
  import opened Buckets
  import opened HistoryTypes
  import opened Aggregates
  import opened HistoryDb

  datatype Event =
    | Insert(samples: seq<HistorySample>)
    | Rollup(now: int, slots: nat)
    | Retain(now: int, slots: nat)

  /** The database beside what the specification remembers: every sample inserted at or above the 10s
      watermark of that moment, and the highest cutoff each rollup table was pruned at. */
  datatype Trace = Trace(db: Db, onTime: Table, cuts: map<Granularity, int>) {
    function Cut(g: Granularity): int {
      if g in cuts then cuts[g] else 0
    }
  }

  const Fresh := Trace(EmptyDb, map[], map[])

  function OnTimeUpsert(t: Table, samples: seq<HistorySample>, mark: int): Table {
    if |samples| == 0 then t
    else
      var last := samples[|samples| - 1];
      var before := OnTimeUpsert(t, samples[..|samples| - 1], mark);
      if last.ts >= mark then before[last.ts := last.row] else before
  }

  function Max(a: int, b: int): int {
    if a < b then b else a
  }

  function RetentionOf(g: Granularity): int {
    match g
    case TenSec => RETENTION_10S_MS
    case OneMin => RETENTION_1M_MS
    case FiveMin => RETENTION_5M_MS
  }

  /** The retention slot that prunes this table. */
  function PruneSlot(g: Granularity): nat {
    match g
    case TenSec => 2
    case OneMin => 3
    case FiveMin => 4
  }

  function CutsAfter(tr: Trace, now: int, slots: nat): map<Granularity, int> {
    map g: Granularity | g in {TenSec, OneMin, FiveMin} ::
      if slots >= PruneSlot(g) then Max(tr.Cut(g), now - RetentionOf(g)) else tr.Cut(g)
  }

  function Step(tr: Trace, e: Event): Trace {
    match e
    case Insert(samples) =>
      tr.(db := InsertBatch(tr.db, samples), onTime := OnTimeUpsert(tr.onTime, samples, tr.db.Mark(TenSec)))
    case Rollup(now, slots) => tr.(db := RollupSlots(tr.db, now, slots))
    case Retain(now, slots) => tr.(db := RetentionSlots(tr.db, now, slots), cuts := CutsAfter(tr, now, slots))
  }

  function Run(tr: Trace, events: seq<Event>): Trace {
    if |events| == 0 then tr
    else Step(Run(tr, events[..|events| - 1]), events[|events| - 1])
  }

  /** No pass deletes a row the next stage still has to read. */
  ghost predicate RetentionSafe(db: Db, now: int) {
    && (forall ts | ts in db.raw && ts >= db.Mark(TenSec) :: ts >= now - RAW_MS)
    && (forall b | b in db.tenSec && b >= db.Mark(OneMin) :: b >= now - RETENTION_10S_MS)
    && (forall b | b in db.oneMin && b >= db.Mark(FiveMin) :: b >= now - RETENTION_1M_MS)
    && |Newer(db.raw, db.Mark(TenSec) - 1)| <= RAW_ROW_CAP
  }

  ghost predicate Legal(db: Db, e: Event) {
    e.Retain? ==> RetentionSafe(db, e.now)
  }

  ghost predicate LegalRun(tr: Trace, events: seq<Event>) {
    |events| > 0 ==>
      && LegalRun(tr, events[..|events| - 1])
      && Legal(Run(tr, events[..|events| - 1]).db, events[|events| - 1])
  }

  function Rank(g: Granularity): nat {
    match g
    case TenSec => 0
    case OneMin => 1
    case FiveMin => 2
  }

  /** The one-shot cascade: raw to 10s to 1m to 5m over whole tables. */
  function Cascade(t: Table, g: Granularity): Table
    decreases Rank(g), 1
  {
    View(Below(t, g), Width(g))
  }

  /** What a level of the cascade aggregates. */
  function Below(t: Table, g: Granularity): Table
    decreases Rank(g), 0
  {
    match g
    case TenSec => t
    case OneMin => Cascade(t, TenSec)
    case FiveMin => Cascade(t, OneMin)
  }

  /** Below the watermark a table holds exactly the view, except for rows already pruned; rows a torn
      rollup left above it stand for buckets the view has too. */
  ghost predicate LevelOk(table: Table, view: Table, mark: int, consumed: int, cut: int) {
    && (forall b | b in table :: b in view && (b < mark ==> table[b] == view[b]))
    && (forall b | b in view && b < mark && (b >= consumed || b >= cut) :: b in table)
  }

  ghost predicate AgreeFrom(t: Table, u: Table, lo: int) {
    forall ts | lo <= ts :: (ts in t <==> ts in u) && (ts in t ==> t[ts] == u[ts])
  }

  ghost predicate Inv(tr: Trace) {
    && MarksOk(tr.db)
    && AgreeFrom(tr.db.raw, tr.onTime, tr.db.Mark(TenSec))
    && forall g: Granularity ::
         LevelOk(tr.db.Dest(g), Cascade(tr.onTime, g), tr.db.Mark(g), tr.db.ConsumedTo(g), tr.Cut(g))
  }

  // ----- inserts

  /** `u` extends `t`, and only from `lo` up. */
  ghost predicate GrowsFrom(t: Table, u: Table, lo: int) {
    && (forall ts | ts in t :: ts in u)
    && (forall ts | ts < lo && ts in u :: ts in t && t[ts] == u[ts])
  }

  lemma ViewGrows(t: Table, u: Table, width: int, lo: int)
    requires width > 0 && lo % width == 0 && GrowsFrom(t, u, lo)
    ensures GrowsFrom(View(t, width), View(u, width), lo)
  {
    forall b | b in View(t, width) ensures b in View(u, width) {
      InView(t, width, b);
      InView(u, width, b);
    }
    forall b | b < lo && b in View(u, width) ensures b in View(t, width) && View(t, width)[b] == View(u, width)[b] {
      InView(u, width, b);
      AlignedGap(b, lo, width);
      ViewFrame(t, u, width, b);
    }
  }

  lemma GrowsLower(t: Table, u: Table, hi: int, lo: int)
    requires GrowsFrom(t, u, hi) && lo <= hi
    ensures GrowsFrom(t, u, lo)
  {
  }

  lemma CascadeGrows(t: Table, u: Table, db: Db, g: Granularity)
    requires MarksOk(db) && GrowsFrom(t, u, db.Mark(TenSec))
    ensures GrowsFrom(Cascade(t, g), Cascade(u, g), db.Mark(g))
  {
    ViewGrows(t, u, Width(TenSec), db.Mark(TenSec));
    if g != TenSec {
      var t1, u1 := Cascade(t, TenSec), Cascade(u, TenSec);
      GrowsLower(t1, u1, db.Mark(TenSec), db.Mark(OneMin));
      ViewGrows(t1, u1, Width(OneMin), db.Mark(OneMin));
      if g == FiveMin {
        var t2, u2 := Cascade(t, OneMin), Cascade(u, OneMin);
        GrowsLower(t2, u2, db.Mark(OneMin), db.Mark(FiveMin));
        ViewGrows(t2, u2, Width(FiveMin), db.Mark(FiveMin));
      }
    }
  }

  lemma LevelOkGrows(table: Table, view: Table, view': Table, mark: int, consumed: int, cut: int)
    requires LevelOk(table, view, mark, consumed, cut) && GrowsFrom(view, view', mark)
    ensures LevelOk(table, view', mark, consumed, cut)
  {
  }

  lemma {:induction false} UpsertGrows(t: Table, u: Table, samples: seq<HistorySample>, mark: int)
    requires AgreeFrom(t, u, mark)
    ensures AgreeFrom(Upsert(t, samples), OnTimeUpsert(u, samples, mark), mark)
    ensures GrowsFrom(u, OnTimeUpsert(u, samples, mark), mark)
  {
    if |samples| > 0 {
      UpsertGrows(t, u, samples[..|samples| - 1], mark);
    }
  }

  lemma InsertKeepsInv(tr: Trace, samples: seq<HistorySample>)
    requires Inv(tr)
    ensures Inv(Step(tr, Insert(samples)))
  {
    var tr' := Step(tr, Insert(samples));
    UpsertGrows(tr.db.raw, tr.onTime, samples, tr.db.Mark(TenSec));
    forall g: Granularity
      ensures LevelOk(tr'.db.Dest(g), Cascade(tr'.onTime, g), tr'.db.Mark(g), tr'.db.ConsumedTo(g), tr'.Cut(g))
    {
      assert LevelOk(tr.db.Dest(g), Cascade(tr.onTime, g), tr.db.Mark(g), tr.db.ConsumedTo(g), tr.Cut(g));
      LevelGrows(tr.db, tr.onTime, tr'.onTime, g, tr.Cut(g));
      SameButRaw(tr.db, samples, g);
    }
  }

  lemma LevelGrows(db: Db, t: Table, u: Table, g: Granularity, cut: int)
    requires MarksOk(db) && GrowsFrom(t, u, db.Mark(TenSec))
    requires LevelOk(db.Dest(g), Cascade(t, g), db.Mark(g), db.ConsumedTo(g), cut)
    ensures LevelOk(db.Dest(g), Cascade(u, g), db.Mark(g), db.ConsumedTo(g), cut)
  {
    CascadeGrows(t, u, db, g);
    LevelOkGrows(db.Dest(g), Cascade(t, g), Cascade(u, g), db.Mark(g), db.ConsumedTo(g), cut);
  }

  lemma SameButRaw(db: Db, samples: seq<HistorySample>, g: Granularity)
    ensures InsertBatch(db, samples).Dest(g) == db.Dest(g) && InsertBatch(db, samples).Mark(g) == db.Mark(g)
    ensures InsertBatch(db, samples).ConsumedTo(g) == db.ConsumedTo(g)
  {
  }

  // ----- rollups

  /** Filling `[from, to)` from a source that agrees there with the level below extends the table by
      exactly the view's rows. */
  lemma StageFills(src: Table, below: Table, table: Table, width: int, from: int, to: int, consumed: int, cut: int)
    requires width > 0 && 0 <= from < to && from % width == 0 && to % width == 0
    requires AgreeOn(src, below, from, to)
    requires LevelOk(table, View(below, width), from, consumed, cut)
    ensures LevelOk(table + GroupBySelect(src, from, to, width), View(below, width), from, consumed, cut)
    ensures LevelOk(table + GroupBySelect(src, from, to, width), View(below, width), to, consumed, cut)
  {
    SelectIsView(src, from, to, width);
    forall b | from <= b < to && b % width == 0
      ensures b in View(src, width) <==> b in View(below, width)
      ensures b in View(src, width) ==> View(src, width)[b] == View(below, width)[b]
    {
      AlignedGap(b, to, width);
      ViewFrame(src, below, width, b);
    }
    forall b | b in View(below, width) || b in View(src, width) ensures b % width == 0 {
      InView(below, width, b);
      InView(src, width, b);
    }
  }

  /** What a stage reads is final and complete. */
  lemma SourceIsFinal(tr: Trace, g: Granularity, to: int)
    requires Inv(tr)
    requires g != TenSec ==> to <= tr.db.Mark(if g == OneMin then TenSec else OneMin)
    ensures AgreeOn(tr.db.Source(g), Below(tr.onTime, g), tr.db.Mark(g), to)
  {
    match g
    case TenSec =>
    case OneMin =>
      assert LevelOk(tr.db.Dest(TenSec), Cascade(tr.onTime, TenSec), tr.db.Mark(TenSec), tr.db.ConsumedTo(TenSec),
                     tr.Cut(TenSec));
    case FiveMin =>
      assert LevelOk(tr.db.Dest(OneMin), Cascade(tr.onTime, OneMin), tr.db.Mark(OneMin), tr.db.ConsumedTo(OneMin),
                     tr.Cut(OneMin));
  }

  lemma StageKeepsInv(tr: Trace, g: Granularity, now: int, slots: nat)
    requires Inv(tr)
    requires g != TenSec && slots > 0 ==>
               BucketStart(now, Width(g)) <= tr.db.Mark(if g == OneMin then TenSec else OneMin)
    ensures Inv(tr.(db := RollupStage(tr.db, g, now, slots)))
  {
    var db := tr.db;
    var to := BucketStart(now, Width(g));
    if to > db.Mark(g) && slots > 0 {
      var after := RollupStage(db, g, now, slots);
      StageEffect(db, g, now, slots);
      StageFillsLevel(tr, g, now, slots);
      forall h: Granularity
        ensures LevelOk(after.Dest(h), Cascade(tr.onTime, h), after.Mark(h), after.ConsumedTo(h), tr.Cut(h))
      {
        assert LevelOk(db.Dest(h), Cascade(tr.onTime, h), db.Mark(h), db.ConsumedTo(h), tr.Cut(h));
        if h != g {
          ConsumedLater(db.Dest(h), Cascade(tr.onTime, h), db.Mark(h), db.ConsumedTo(h), after.ConsumedTo(h),
                        tr.Cut(h));
        }
      }
      assert forall h: Granularity :: after.Mark(h) % Width(h) == 0;
    }
  }

  lemma ConsumedLater(table: Table, view: Table, mark: int, consumed: int, consumed': int, cut: int)
    requires LevelOk(table, view, mark, consumed, cut) && consumed <= consumed'
    ensures LevelOk(table, view, mark, consumed', cut)
  {
  }

  /** What a stage that closes a bucket leaves, as far as its own level goes. */
  lemma StageTargets(db: Db, g: Granularity, now: int, slots: nat, to: int)
    requires to == BucketStart(now, Width(g)) && db.Mark(g) < to && slots > 0
    ensures var after := RollupStage(db, g, now, slots);
            && after.Dest(g) == db.Dest(g) + GroupBySelect(db.Source(g), db.Mark(g), to, Width(g))
            && after.Mark(g) == (if slots < 2 then db.Mark(g) else to)
            && after.ConsumedTo(g) == (if g == FiveMin then after.Mark(g) else db.ConsumedTo(g))
  {
    StageEffect(db, g, now, slots);
    WithDestEffect(db, g, db.Dest(g) + GroupBySelect(db.Source(g), db.Mark(g), to, Width(g)));
  }

  lemma StageFillsLevel(tr: Trace, g: Granularity, now: int, slots: nat)
    requires Inv(tr)
    requires tr.db.Mark(g) < BucketStart(now, Width(g)) && slots > 0
    requires g != TenSec ==> BucketStart(now, Width(g)) <= tr.db.Mark(if g == OneMin then TenSec else OneMin)
    ensures var after := RollupStage(tr.db, g, now, slots);
            LevelOk(after.Dest(g), Cascade(tr.onTime, g), after.Mark(g), after.ConsumedTo(g), tr.Cut(g))
  {
    var db := tr.db;
    var from, to := db.Mark(g), BucketStart(now, Width(g));
    assert LevelOk(db.Dest(g), Cascade(tr.onTime, g), from, db.ConsumedTo(g), tr.Cut(g));
    SourceIsFinal(tr, g, to);
    StageFills(db.Source(g), Below(tr.onTime, g), db.Dest(g), Width(g), from, to, db.ConsumedTo(g), tr.Cut(g));
    StageTargets(db, g, now, slots, to);
    var after := RollupStage(db, g, now, slots);
    ConsumedLater(after.Dest(g), Cascade(tr.onTime, g), after.Mark(g), db.ConsumedTo(g), after.ConsumedTo(g),
                  tr.Cut(g));
  }

  lemma RollupKeepsInv(tr: Trace, now: int, slots: nat)
    requires Inv(tr)
    ensures Inv(Step(tr, Rollup(now, slots)))
  {
    BucketsNest(now);
    var tr1 := tr.(db := RollupStage(tr.db, TenSec, now, slots));
    var tr2 := tr1.(db := RollupStage(tr1.db, OneMin, now, Less(slots, 2)));
    StageKeepsInv(tr, TenSec, now, slots);
    StageKeepsInv(tr1, OneMin, now, Less(slots, 2));
    StageEffect(tr1.db, OneMin, now, Less(slots, 2));
    StageKeepsInv(tr2, FiveMin, now, Less(slots, 4));
  }

  // ----- retention

  lemma CapKeepsFrom(t: Table, mark: int, cap: nat)
    requires |Newer(t, mark - 1)| <= cap
    ensures AgreeFrom(NewestRows(t, cap), t, mark)
  {
    forall ts | mark <= ts && ts in t ensures |Newer(t, ts)| < cap {
      NewerSmaller(t, mark - 1, ts);
    }
  }

  lemma PruneKeepsLevel(table: Table, view: Table, mark: int, consumed: int, cut: int, cutoff: int)
    requires LevelOk(table, view, mark, consumed, cut)
    requires forall b | b in table && consumed <= b < mark :: b >= cutoff
    ensures LevelOk(Prune(table, cutoff), view, mark, consumed, Max(cut, cutoff))
  {
  }

  lemma RetentionTables(db: Db, now: int, slots: nat, g: Granularity)
    ensures RetentionSlots(db, now, slots).Dest(g)
              == if slots >= PruneSlot(g) then Prune(db.Dest(g), now - RetentionOf(g)) else db.Dest(g)
  {
  }

  lemma RetentionRaw(db: Db, now: int, slots: nat)
    ensures var pruned := Prune(db.raw, now - RAW_MS);
            RetentionSlots(db, now, slots).raw
              == if slots < 1 then db.raw else if slots < 5 then pruned else NewestRows(pruned, RAW_ROW_CAP)
  {
  }

  lemma RetentionKeepsRaw(db: Db, now: int, slots: nat)
    requires RetentionSafe(db, now)
    ensures AgreeFrom(RetentionSlots(db, now, slots).raw, db.raw, db.Mark(TenSec))
  {
    RetentionRaw(db, now, slots);
    var pruned := Prune(db.raw, now - RAW_MS);
    assert AgreeFrom(pruned, db.raw, db.Mark(TenSec));
    SmallerSet(Newer(pruned, db.Mark(TenSec) - 1), Newer(db.raw, db.Mark(TenSec) - 1));
    CapKeepsFrom(pruned, db.Mark(TenSec), RAW_ROW_CAP);
  }

  lemma SafePrune(db: Db, now: int, g: Granularity)
    requires RetentionSafe(db, now)
    ensures forall b | b in db.Dest(g) && db.ConsumedTo(g) <= b < db.Mark(g) :: b >= now - RetentionOf(g)
  {
  }

  lemma RetentionKeepsLevel(tr: Trace, now: int, slots: nat, g: Granularity)
    requires LevelOk(tr.db.Dest(g), Cascade(tr.onTime, g), tr.db.Mark(g), tr.db.ConsumedTo(g), tr.Cut(g))
    requires RetentionSafe(tr.db, now)
    ensures var tr' := Step(tr, Retain(now, slots));
            LevelOk(tr'.db.Dest(g), Cascade(tr.onTime, g), tr.db.Mark(g), tr.db.ConsumedTo(g), tr'.Cut(g))
  {
    RetentionTables(tr.db, now, slots, g);
    SafePrune(tr.db, now, g);
    var cut' := Step(tr, Retain(now, slots)).Cut(g);
    assert cut' == if slots >= PruneSlot(g) then Max(tr.Cut(g), now - RetentionOf(g)) else tr.Cut(g);
    var table, view, mark, consumed := tr.db.Dest(g), Cascade(tr.onTime, g), tr.db.Mark(g), tr.db.ConsumedTo(g);
    PruneKeepsLevel(table, view, mark, consumed, tr.Cut(g), now - RetentionOf(g));
  }

  lemma RetentionKeepsInv(tr: Trace, now: int, slots: nat)
    requires Inv(tr) && RetentionSafe(tr.db, now)
    ensures Inv(Step(tr, Retain(now, slots)))
  {
    var tr' := Step(tr, Retain(now, slots));
    assert tr'.onTime == tr.onTime;
    RetentionKeepsMarks(tr.db, now, slots);
    RetentionKeepsRaw(tr.db, now, slots);
    forall g: Granularity
      ensures LevelOk(tr'.db.Dest(g), Cascade(tr'.onTime, g), tr'.db.Mark(g), tr'.db.ConsumedTo(g), tr'.Cut(g))
    {
      RetentionKeepsLevel(tr, now, slots, g);
    }
  }

  // ----- whole runs

  lemma {:induction false} RunKeepsInv(tr: Trace, events: seq<Event>)
    requires Inv(tr) && LegalRun(tr, events)
    ensures Inv(Run(tr, events))
  {
    if |events| > 0 {
      var before := Run(tr, events[..|events| - 1]);
      RunKeepsInv(tr, events[..|events| - 1]);
      match events[|events| - 1]
      case Insert(samples) => InsertKeepsInv(before, samples);
      case Rollup(now, slots) => RollupKeepsInv(before, now, slots);
      case Retain(now, slots) => RetentionKeepsInv(before, now, slots);
    }
  }

  lemma FreshInv()
    ensures Inv(Fresh)
  {
    forall g: Granularity ensures 0 % Width(g) == 0 {
    }
  }
}
