/** Whole runs end alike with and without the rollups in them: inserts, retention passes, and any number of
    complete or torn rollups, followed by one rollup that runs to its end. */
module HistoryRepair {
  import opened Buckets
  import opened HistoryTypes
  import opened Aggregates
  import opened HistoryDb
  import opened HistoryView
  import opened HistoryTheorems
  import opened HistoryCrash

  // ----- a retention pass commutes with a torn rollup

  /** What a retention pass leaves of a rollup table. */
  function Retained(t: Table, g: Granularity, now: int, slots: nat): Table {
    if slots >= PruneSlot(g) then Prune(t, now - RetentionOf(g)) else t
  }

  lemma FillFrame(src: Table, src': Table, table: Table, from: int, to: int, width: int, slots: nat)
    requires width > 0 && 0 <= from && from % width == 0 && to % width == 0 && AgreeOn(src, src', from, to)
    ensures Fill(src, table, from, to, width, slots) == Fill(src', table, from, to, width, slots)
  {
    if from < to {
      SelectIsRange(src, from, to, width);
      SelectIsRange(src', from, to, width);
      RangeFrame(src, src', from, to, width);
    }
  }

  /** A row a stage fills in is at most one bucket older than the oldest row it read. */
  lemma FilledRowsRecent(src: Table, table: Table, from: int, to: int, width: int, slots: nat, lo: int, bound: int)
    requires width > 0 && 0 <= from && from % width == 0 && to % width == 0
    requires forall ts | ts in src && ts >= from :: ts >= bound + width
    requires forall b | b in table && b >= lo :: b >= bound
    ensures forall b | b in Fill(src, table, from, to, width, slots) && b >= lo :: b >= bound
  {
    if from < to {
      forall b | b in GroupBySelect(src, from, to, width) ensures b >= bound {
        SelectIsView(src, from, to, width);
        InView(src, width, b);
      }
    }
  }

  lemma PruneFill(src: Table, table: Table, from: int, to: int, width: int, slots: nat, cutoff: int)
    requires width > 0 && 0 <= from && from % width == 0 && to % width == 0
    requires forall ts | ts in src && ts >= from :: ts >= cutoff + width
    ensures Prune(Fill(src, table, from, to, width, slots), cutoff)
              == Fill(src, Prune(table, cutoff), from, to, width, slots)
  {
    if from < to {
      var rows := GroupBySelect(src, from, to, width);
      forall b | b in rows ensures b >= cutoff {
        SelectIsView(src, from, to, width);
        InView(src, width, b);
      }
      assert Prune(table + rows, cutoff) == Prune(table, cutoff) + rows;
    }
  }

  /** One stage of the torn rollup commutes with the pass, as the pass keeps what the stage reads. */
  lemma StageCommutes(db: Db, g: Granularity, now1: int, k: nat, src: Table, src': Table, now: int, slots: nat)
    requires MarksOk(db) && AgreeFrom(src', src, db.Mark(g))
    requires forall ts | ts in src && ts >= db.Mark(g) :: ts >= now - RetentionOf(g) + Width(g)
    ensures Retained(FillStage(db, g, now1, src, k), g, now, slots)
              == FillKept(db, g, now1, src', k, now, slots)
  {
    FillRetained(src, src', db.Dest(g), g, db.Mark(g), BucketStart(now1, Width(g)), k, now, slots);
  }

  lemma FillRetained(
    src: Table, src': Table, table: Table, g: Granularity, from: int, to: int, k: nat, now: int, slots: nat)
    requires 0 <= from && from % Width(g) == 0 && to % Width(g) == 0 && AgreeFrom(src', src, from)
    requires forall ts | ts in src && ts >= from :: ts >= now - RetentionOf(g) + Width(g)
    ensures Retained(Fill(src, table, from, to, Width(g), k), g, now, slots)
              == Fill(src', Retained(table, g, now, slots), from, to, Width(g), k)
  {
    assert AgreeOn(src, src', from, to);
    if slots >= PruneSlot(g) {
      PruneFill(src, table, from, to, Width(g), k, now - RetentionOf(g));
    }
    FillFrame(src, src', Retained(table, g, now, slots), from, to, Width(g), k);
  }

  lemma TornRowsRecent(db: Db, now1: int, k: nat, now: int)
    requires MarksOk(db) && RetentionSafe(db, now)
    ensures var torn := RollupSlots(db, now1, k);
            && (forall b | b in torn.tenSec && b >= db.Mark(OneMin) :: b >= now - RETENTION_10S_MS)
            && (forall b | b in torn.oneMin && b >= db.Mark(FiveMin) :: b >= now - RETENTION_1M_MS)
  {
    var torn := RollupSlots(db, now1, k);
    RollupTables(db, now1, k);
    FilledRowsRecent(db.raw, db.tenSec, db.Mark(TenSec), BucketStart(now1, Width(TenSec)), Width(TenSec), k,
                     db.Mark(OneMin), now - RETENTION_10S_MS);
    FilledRowsRecent(torn.tenSec, db.oneMin, db.Mark(OneMin), BucketStart(now1, Width(OneMin)), Width(OneMin),
                     Less(k, 2), db.Mark(FiveMin), now - RETENTION_1M_MS);
  }

  lemma PassRetains(db: Db, now: int, slots: nat)
    ensures var kept := RetentionSlots(db, now, slots);
            && kept.tenSec == Retained(db.tenSec, TenSec, now, slots)
            && kept.oneMin == Retained(db.oneMin, OneMin, now, slots)
            && kept.fiveMin == Retained(db.fiveMin, FiveMin, now, slots)
            && kept.marks == db.marks
  {
    RetentionTables(db, now, slots, TenSec);
    RetentionTables(db, now, slots, OneMin);
    RetentionTables(db, now, slots, FiveMin);
  }

  lemma SameRawRetained(db: Db, torn: Db, now: int, slots: nat)
    requires torn.raw == db.raw
    ensures RetentionSlots(torn, now, slots).raw == RetentionSlots(db, now, slots).raw
  {
    RetentionRaw(db, now, slots);
    RetentionRaw(torn, now, slots);
  }

  lemma TablesCommute(db: Db, now1: int, k: nat, now: int, slots: nat, raw: Table, ten: Table, one: Table, five: Table)
    requires MarksOk(db) && RetentionSafe(db, now) && AgreeFrom(raw, db.raw, db.Mark(TenSec))
    requires ten == FillStage(db, TenSec, now1, db.raw, k)
    requires one == FillStage(db, OneMin, now1, ten, Less(k, 2))
    requires five == FillStage(db, FiveMin, now1, one, Less(k, 4))
    ensures FillKept(db, TenSec, now1, raw, k, now, slots) == Retained(ten, TenSec, now, slots)
    ensures FillKept(db, OneMin, now1, Retained(ten, TenSec, now, slots), Less(k, 2), now, slots)
              == Retained(one, OneMin, now, slots)
    ensures FillKept(db, FiveMin, now1, Retained(one, OneMin, now, slots), Less(k, 4), now, slots)
              == Retained(five, FiveMin, now, slots)
  {
    TornRowsRecent(db, now1, k, now);
    RollupTables(db, now1, k);
    StageCommutes(db, TenSec, now1, k, db.raw, raw, now, slots);
    StageCommutes(db, OneMin, now1, Less(k, 2), ten, Retained(ten, TenSec, now, slots), now, slots);
    StageCommutes(db, FiveMin, now1, Less(k, 4), one, Retained(one, OneMin, now, slots), now, slots);
  }

  /** A stage over what the pass left. */
  function FillKept(db: Db, g: Granularity, now1: int, src: Table, k: nat, now: int, slots: nat): Table {
    Fill(src, Retained(db.Dest(g), g, now, slots), db.Mark(g), BucketStart(now1, Width(g)), Width(g), k)
  }

  /** A pass that deletes no unconsumed row can as well run before the torn rollup as after it. */
  lemma RetentionCommutes(db: Db, now1: int, k: nat, now: int, slots: nat)
    requires MarksOk(db) && RetentionSafe(db, now)
    ensures RetentionSlots(RollupSlots(db, now1, k), now, slots) == RollupSlots(RetentionSlots(db, now, slots), now1, k)
  {
    var torn, kept := RollupSlots(db, now1, k), RetentionSlots(db, now, slots);
    RollupTables(db, now1, k);
    RollupTables(kept, now1, k);
    PassRetains(db, now, slots);
    PassRetains(torn, now, slots);
    SameRawRetained(db, torn, now, slots);
    SameMarks(db, kept);
    RetentionKeepsRaw(db, now, slots);
    TablesCommute(db, now1, k, now, slots, kept.raw, torn.tenSec, torn.oneMin, torn.fiveMin);
    SameDb(RetentionSlots(torn, now, slots), RollupSlots(kept, now1, k));
  }

  // ----- whole runs

  function DbStep(db: Db, e: Event): Db {
    match e
    case Insert(samples) => InsertBatch(db, samples)
    case Rollup(now, slots) => RollupSlots(db, now, slots)
    case Retain(now, slots) => RetentionSlots(db, now, slots)
  }

  /** The same step in a run whose rollups are left out. */
  function PlainStep(db: Db, e: Event): Db {
    if e.Rollup? then db else DbStep(db, e)
  }

  /** The run, and then a complete rollup. */
  function Outcome(db: Db, events: seq<Event>, last: int): Db
    decreases |events|
  {
    if events == [] then RollupDb(db, last) else Outcome(DbStep(db, events[0]), events[1..], last)
  }

  /** The run without its rollups, and then a complete rollup. */
  function PlainOutcome(db: Db, events: seq<Event>, last: int): Db
    decreases |events|
  {
    if events == [] then RollupDb(db, last) else PlainOutcome(PlainStep(db, events[0]), events[1..], last)
  }

  ghost predicate EventOk(db: Db, plain: Db, e: Event, last: int) {
    match e
    case Insert(samples) => OnTime(samples, db.Mark(TenSec))
    case Rollup(now, _) => now <= last
    case Retain(now, _) => RetentionSafe(plain, now)
  }

  /** Beside the run `db` goes through, `plain` goes through it without its rollups. Every batch is on time, no
      rollup is later than the last one, and no pass deletes a source row at or above the watermarks that
      `plain` still has. */
  ghost predicate Repairable(db: Db, plain: Db, events: seq<Event>, last: int)
    decreases |events|
  {
    events != [] ==>
      && EventOk(db, plain, events[0], last)
      && Repairable(DbStep(db, events[0]), PlainStep(plain, events[0]), events[1..], last)
  }

  lemma EarlierSafe(db: Db, earlier: Table, now1: int, k: nat, now: int)
    requires RetentionSafe(db, now) && StillThere(db, earlier, now1, k)
    ensures RetentionSafe(db.(raw := earlier), now)
  {
    SmallerSet(Newer(earlier, db.Mark(TenSec) - 1), Newer(db.raw, db.Mark(TenSec) - 1));
    SameMarks(db, db.(raw := earlier));
  }

  /** What is safe without the torn rollup is safe with it. */
  lemma TornSafe(db: Db, earlier: Table, now1: int, k: nat, now: int)
    requires MarksOk(db) && RetentionSafe(db, now) && StillThere(db, earlier, now1, k)
    ensures RetentionSafe(Torn(db, earlier, now1, k), now)
  {
    var before, torn := db.(raw := earlier), Torn(db, earlier, now1, k);
    EarlierSafe(db, earlier, now1, k, now);
    SameMarks(db, before);
    TornRowsRecent(before, now1, k, now);
    RollupKeepsMarks(before, now1, k);
    SameMarks(torn, RollupSlots(before, now1, k));
    SmallerSet(Newer(db.raw, torn.Mark(TenSec) - 1), Newer(db.raw, db.Mark(TenSec) - 1));
  }

  lemma InsertTorn(db: Db, earlier: Table, now1: int, k: nat, samples: seq<HistorySample>)
    requires StillThere(db, earlier, now1, k) && MarksOk(db)
    requires OnTime(samples, Torn(db, earlier, now1, k).Mark(TenSec))
    ensures var db' := InsertBatch(db, samples);
            && InsertBatch(Torn(db, earlier, now1, k), samples) == Torn(db', earlier, now1, k)
            && StillThere(db', earlier, now1, k) && MarksOk(db')
  {
    var before, torn, db' := db.(raw := earlier), Torn(db, earlier, now1, k), InsertBatch(db, samples);
    RollupMarks(before, now1, k);
    SameMarks(torn, RollupSlots(before, now1, k));
    SameMarks(db, before);
    SameMarks(db, db');
    assert db'.(raw := earlier) == before;
    UpsertKeeps(db.raw, samples, torn.Mark(TenSec));
  }

  lemma RetainTornIs(db: Db, earlier: Table, now1: int, k: nat, now: int, slots: nat)
    requires MarksOk(db.(raw := earlier)) && RetentionSafe(db.(raw := earlier), now)
    ensures RetentionSlots(Torn(db, earlier, now1, k), now, slots)
              == Torn(RetentionSlots(db, now, slots), RetentionSlots(db.(raw := earlier), now, slots).raw, now1, k)
  {
    var before, torn := db.(raw := earlier), Torn(db, earlier, now1, k);
    RetentionCommutes(before, now1, k, now, slots);
    RetentionButRaw(db, earlier, now, slots);
    RetentionButRaw(RollupSlots(before, now1, k), db.raw, now, slots);
    SameRawRetained(db, torn, now, slots);
  }

  lemma StillThereAcross(a: Table, b: Table, a': Table, b': Table, mark: int, to: int)
    requires (forall ts | ts in a && ts >= mark :: ts in b) && AgreeOn(a, b, mark, to)
    requires AgreeFrom(a', a, mark) && AgreeFrom(b', b, mark)
    ensures (forall ts | ts in a' && ts >= mark :: ts in b') && AgreeOn(a', b', mark, to)
  {
  }

  lemma RetainStillThere(db: Db, earlier: Table, now1: int, k: nat, now: int, slots: nat)
    requires StillThere(db, earlier, now1, k) && RetentionSafe(db, now) && RetentionSafe(db.(raw := earlier), now)
    ensures StillThere(RetentionSlots(db, now, slots), RetentionSlots(db.(raw := earlier), now, slots).raw, now1, k)
  {
    var db', earlier' := RetentionSlots(db, now, slots), RetentionSlots(db.(raw := earlier), now, slots).raw;
    RetentionKeepsRaw(db, now, slots);
    RetentionKeepsRaw(db.(raw := earlier), now, slots);
    StillThereAcross(earlier, db.raw, earlier', db'.raw, db.Mark(TenSec), StageMark(db, TenSec, now1, k));
    RetentionKeepsMarks(db, now, slots);
    MarksDecide(db, db', earlier', now1, k);
  }

  lemma MarksDecide(db: Db, db': Db, earlier: Table, now: int, k: nat)
    requires db'.marks == db.marks
    requires forall ts | ts in earlier && ts >= db.Mark(TenSec) :: ts in db'.raw
    requires AgreeOn(earlier, db'.raw, db.Mark(TenSec), StageMark(db, TenSec, now, k))
    ensures StillThere(db', earlier, now, k)
  {
  }

  lemma RetainTorn(db: Db, earlier: Table, now1: int, k: nat, now: int, slots: nat)
    requires StillThere(db, earlier, now1, k) && MarksOk(db) && RetentionSafe(db, now)
    ensures var db' := RetentionSlots(db, now, slots);
            var earlier' := RetentionSlots(db.(raw := earlier), now, slots).raw;
            && RetentionSlots(Torn(db, earlier, now1, k), now, slots) == Torn(db', earlier', now1, k)
            && StillThere(db', earlier', now1, k) && MarksOk(db')
  {
    EarlierSafe(db, earlier, now1, k, now);
    SameMarks(db, db.(raw := earlier));
    RetentionKeepsMarks(db, now, slots);
    SameMarks(db, RetentionSlots(db, now, slots));
    RetainTornIs(db, earlier, now1, k, now, slots);
    RetainStillThere(db, earlier, now1, k, now, slots);
  }

  lemma RetentionButRaw(db: Db, raw: Table, now: int, slots: nat)
    ensures var kept := RetentionSlots(db.(raw := raw), now, slots);
            kept == RetentionSlots(db, now, slots).(raw := kept.raw)
  {
    PassRetains(db, now, slots);
    PassRetains(db.(raw := raw), now, slots);
  }

  lemma TornStep(torn: Db, plain: Db, earlier: Table, now1: int, k: nat, db: Db, e: Event) returns (earlier': Table)
    requires MarksOk(plain) && StillThere(plain, earlier, now1, k) && torn == Torn(plain, earlier, now1, k)
    requires torn.Mark(TenSec) <= db.Mark(TenSec)
    requires e.Insert? ==> OnTime(e.samples, db.Mark(TenSec))
    requires e.Retain? ==> RetentionSafe(plain, e.now)
    requires !e.Rollup?
    ensures var plain' := DbStep(plain, e);
            && MarksOk(plain') && StillThere(plain', earlier', now1, k)
            && DbStep(torn, e) == Torn(plain', earlier', now1, k)
    ensures DbStep(torn, e).Mark(TenSec) <= DbStep(db, e).Mark(TenSec)
    ensures e.Retain? ==> RetentionSafe(torn, e.now)
  {
    StepKeepsMarks(db, e);
    StepKeepsMarks(torn, e);
    match e
    case Insert(samples) =>
      InsertTorn(plain, earlier, now1, k, samples);
      earlier' := earlier;
    case Retain(now, slots) =>
      TornSafe(plain, earlier, now1, k, now);
      RetainTorn(plain, earlier, now1, k, now, slots);
      earlier' := RetentionSlots(plain.(raw := earlier), now, slots).raw;
  }

  lemma StepKeepsMarks(db: Db, e: Event)
    requires !e.Rollup?
    ensures DbStep(db, e).marks == db.marks && DbStep(db, e).Mark(TenSec) == db.Mark(TenSec)
    ensures MarksOk(db) ==> MarksOk(DbStep(db, e))
  {
    if e.Retain? {
      RetentionKeepsMarks(db, e.now, e.slots);
    }
    SameMarks(db, DbStep(db, e));
  }

  ghost predicate Behind(torn: Db, plain: Db, earlier: Table, now1: int, k: nat, db: Db) {
    && MarksOk(plain) && StillThere(plain, earlier, now1, k) && torn == Torn(plain, earlier, now1, k)
    && MarksOk(db) && torn.Mark(TenSec) <= db.Mark(TenSec)
  }

  lemma BehindStep(torn: Db, plain: Db, earlier: Table, now1: int, k: nat, db: Db, e: Event, last: int)
    returns (earlier': Table)
    requires Behind(torn, plain, earlier, now1, k, db) && EventOk(db, plain, e, last)
    ensures EventOk(db, torn, e, last)
    ensures Behind(PlainStep(torn, e), PlainStep(plain, e), earlier', now1, k, DbStep(db, e))
  {
    if e.Rollup? {
      RollupKeepsMarks(db, e.now, e.slots);
      earlier' := earlier;
    } else {
      earlier' := TornStep(torn, plain, earlier, now1, k, db, e);
      StepKeepsMarks(db, e);
    }
  }

  lemma BehindEnd(torn: Db, plain: Db, earlier: Table, now1: int, k: nat, db: Db, last: int)
    requires Behind(torn, plain, earlier, now1, k, db) && now1 <= last
    ensures RollupDb(torn, last) == RollupDb(plain, last)
  {
    TornIsRepaired(plain, earlier, now1, k, last);
  }

  /** A torn rollup in front of a run without rollups makes no difference after a later complete one. */
  lemma {:induction false} TornRunIsRepaired(
    torn: Db, plain: Db, earlier: Table, now1: int, k: nat, db: Db, events: seq<Event>, last: int)
    requires Behind(torn, plain, earlier, now1, k, db) && now1 <= last
    requires Repairable(db, plain, events, last)
    ensures Repairable(db, torn, events, last)
    ensures PlainOutcome(torn, events, last) == PlainOutcome(plain, events, last)
    decreases |events|
  {
    if events == [] {
      BehindEnd(torn, plain, earlier, now1, k, db, last);
    } else {
      var e := events[0];
      var earlier' := BehindStep(torn, plain, earlier, now1, k, db, e, last);
      TornRunIsRepaired(PlainStep(torn, e), PlainStep(plain, e), earlier', now1, k, DbStep(db, e), events[1..], last);
    }
  }

  lemma BehindFirst(db: Db, now: int, slots: nat)
    requires MarksOk(db)
    ensures var torn := RollupSlots(db, now, slots); Behind(torn, db, db.raw, now, slots, torn)
  {
    WholeTorn(db, now, slots);
    RollupKeepsMarks(db, now, slots);
  }

  /** Crash safety over whole runs: whatever rollups happened on the way, wherever each of them stopped, one
      that runs to its end leaves exactly the database it would leave as the only one. */
  lemma {:induction false} RollupsAreRepaired(db: Db, events: seq<Event>, last: int)
    requires MarksOk(db) && Repairable(db, db, events, last)
    ensures Outcome(db, events, last) == PlainOutcome(db, events, last)
    decreases |events|
  {
    if events != [] {
      var e, after := events[0], DbStep(db, events[0]);
      if e.Rollup? {
        BehindFirst(db, e.now, e.slots);
        TornRunIsRepaired(after, db, db.raw, e.now, e.slots, after, events[1..], last);
      } else {
        StepKeepsMarks(db, e);
      }
      RollupsAreRepaired(after, events[1..], last);
    }
  }

  lemma WholeTorn(db: Db, now: int, slots: nat)
    ensures Torn(db, db.raw, now, slots) == RollupSlots(db, now, slots) && StillThere(db, db.raw, now, slots)
  {
    RollupMarks(db, now, slots);
    assert db.(raw := db.raw) == db;
  }

  /** The writer's own order: a rollup that fails after any of its statements, the retention pass that follows it
      all the same, any on-time batch, and the next complete rollup. */
  lemma TornRollupIsRepaired(
    db: Db, now1: int, k: nat, now: int, slots: nat, now2: int, samples: seq<HistorySample>)
    requires MarksOk(db) && RetentionSafe(db, now) && now1 <= now2
    requires OnTime(samples, RollupSlots(db, now1, k).Mark(TenSec))
    ensures RollupDb(InsertBatch(RetentionSlots(RollupSlots(db, now1, k), now, slots), samples), now2)
              == RollupDb(InsertBatch(RetentionSlots(db, now, slots), samples), now2)
  {
    var torn := RollupSlots(db, now1, k);
    WholeTorn(db, now1, k);
    RetainTorn(db, db.raw, now1, k, now, slots);
    var kept, earlier := RetentionSlots(db, now, slots), RetentionSlots(db, now, slots).raw;
    RetentionKeepsMarks(torn, now, slots);
    SameMarks(torn, RetentionSlots(torn, now, slots));
    InsertTorn(kept, earlier, now1, k, samples);
    TornIsRepaired(InsertBatch(kept, samples), earlier, now1, k, now2);
  }
}
