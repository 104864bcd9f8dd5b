/** Crash safety of the rollup: a rollup stopped between any two of its statements is repaired by the
    next complete one. */
module HistoryCrash {
  import opened Buckets
  import opened HistoryTypes
  import opened Aggregates
  import opened HistoryDb

  /** The table a stage leaves in its destination. */
  function Fill(src: Table, table: Table, from: int, to: int, width: int, slots: nat): Table
    requires width > 0
  {
    if to <= from || slots == 0 then table else table + GroupBySelect(src, from, to, width)
  }

  lemma StageFill(db: Db, g: Granularity, now: int, slots: nat)
    ensures var after := RollupStage(db, g, now, slots);
            && after.Dest(g) == Fill(db.Source(g), db.Dest(g), db.Mark(g), BucketStart(now, Width(g)), Width(g), slots)
            && after.marks == MarksAfter(db.marks, g, now, slots)
  {
    StageFillTo(db, g, now, BucketStart(now, Width(g)), slots);
  }

  lemma StageFillTo(db: Db, g: Granularity, now: int, to: int, slots: nat)
    requires to == BucketStart(now, Width(g))
    ensures RollupStage(db, g, now, slots).Dest(g) == Fill(db.Source(g), db.Dest(g), db.Mark(g), to, Width(g), slots)
    ensures RollupStage(db, g, now, slots).marks == Advance(db.marks, g, to, slots)
  {
    WithDestEffect(db, g, db.Dest(g) + GroupBySelect(db.Source(g), db.Mark(g), to, Width(g)));
  }

  lemma RollupTables(db: Db, now: int, slots: nat)
    ensures var after := RollupSlots(db, now, slots);
            && after.tenSec == FillStage(db, TenSec, now, db.raw, slots)
            && after.oneMin == FillStage(db, OneMin, now, after.tenSec, Less(slots, 2))
            && after.fiveMin == FillStage(db, FiveMin, now, after.oneMin, Less(slots, 4))
            && after.raw == db.raw
            && after.marks == MarksChain(db.marks, now, slots)
  {
    var db1 := RollupStage(db, TenSec, now, slots);
    var db2 := RollupStage(db1, OneMin, now, Less(slots, 2));
    var db3 := RollupStage(db2, FiveMin, now, Less(slots, 4));
    assert RollupSlots(db, now, slots) == db3;
    StageEffect(db, TenSec, now, slots);
    StageEffect(db1, OneMin, now, Less(slots, 2));
    StageEffect(db2, FiveMin, now, Less(slots, 4));
    StageFill(db, TenSec, now, slots);
    StageFill(db1, OneMin, now, Less(slots, 2));
    StageFill(db2, FiveMin, now, Less(slots, 4));
    assert db3.tenSec == db3.Dest(TenSec) == db1.Dest(TenSec);
    assert db3.oneMin == db3.Dest(OneMin) == db2.Dest(OneMin);
    assert db1.Dest(OneMin) == db.Dest(OneMin) && db2.Dest(FiveMin) == db.Dest(FiveMin);
    assert db2.Source(FiveMin) == db2.Dest(OneMin) && db1.Source(OneMin) == db1.Dest(TenSec);
  }

  function Advance(marks: map<Granularity, int>, g: Granularity, to: int, slots: nat): map<Granularity, int> {
    if slots < 2 || to <= (if g in marks then marks[g] else 0) then marks else marks[g := to]
  }

  function MarksAfter(marks: map<Granularity, int>, g: Granularity, now: int, slots: nat): map<Granularity, int> {
    Advance(marks, g, BucketStart(now, Width(g)), slots)
  }

  function AdvanceAll(marks: map<Granularity, int>, ten: int, one: int, five: int, slots: nat): map<Granularity, int> {
    Advance(Advance(Advance(marks, TenSec, ten, slots), OneMin, one, Less(slots, 2)), FiveMin, five, Less(slots, 4))
  }

  function MarksChain(marks: map<Granularity, int>, now: int, slots: nat): map<Granularity, int> {
    AdvanceAll(marks, BucketStart(now, Width(TenSec)), BucketStart(now, Width(OneMin)),
               BucketStart(now, Width(FiveMin)), slots)
  }

  lemma AdvanceTwice(
    marks: map<Granularity, int>, ten1: int, ten2: int, one1: int, one2: int, five1: int, five2: int, slots: nat)
    requires ten1 <= ten2 && one1 <= one2 && five1 <= five2
    ensures AdvanceAll(AdvanceAll(marks, ten1, one1, five1, slots), ten2, one2, five2, ROLLUP_SLOTS)
              == AdvanceAll(marks, ten2, one2, five2, ROLLUP_SLOTS)
  {
  }

  lemma MarksRepaired(marks: map<Granularity, int>, now1: int, now2: int, slots: nat)
    requires now1 <= now2
    ensures MarksChain(MarksChain(marks, now1, slots), now2, ROLLUP_SLOTS) == MarksChain(marks, now2, ROLLUP_SLOTS)
  {
    LaterClock(now1, now2, TenSec);
    LaterClock(now1, now2, OneMin);
    LaterClock(now1, now2, FiveMin);
    AdvanceTwice(marks, BucketStart(now1, Width(TenSec)), BucketStart(now2, Width(TenSec)),
                 BucketStart(now1, Width(OneMin)), BucketStart(now2, Width(OneMin)),
                 BucketStart(now1, Width(FiveMin)), BucketStart(now2, Width(FiveMin)), slots);
  }

  /** The part of a table between two bounds. */
  function Range(t: Table, lo: int, hi: int): Table {
    map b | b in t && lo <= b < hi :: t[b]
  }

  lemma SelectIsRange(src: Table, from: int, to: int, width: int)
    requires width > 0 && 0 <= from && from % width == 0 && to % width == 0
    ensures GroupBySelect(src, from, to, width) == Range(View(src, width), from, to)
  {
    SelectIsView(src, from, to, width);
  }

  lemma RangeFrame(t: Table, u: Table, lo: int, hi: int, width: int)
    requires width > 0 && hi % width == 0 && AgreeOn(t, u, lo, hi)
    ensures Range(View(t, width), lo, hi) == Range(View(u, width), lo, hi)
  {
    forall b | lo <= b < hi
      ensures b in View(t, width) <==> b in View(u, width)
      ensures b in View(t, width) ==> View(t, width)[b] == View(u, width)[b]
    {
      InView(t, width, b);
      InView(u, width, b);
      if b % width == 0 {
        AlignedGap(b, hi, width);
        ViewFrame(t, u, width, b);
      }
    }
  }

  /** A range can be selected in two aligned parts. */
  lemma SelectSplit(src1: Table, src2: Table, from: int, mid: int, to: int, width: int)
    requires width > 0 && 0 <= from < mid <= to
    requires from % width == 0 && mid % width == 0 && to % width == 0
    requires AgreeOn(src1, src2, from, mid)
    ensures GroupBySelect(src1, from, mid, width) + GroupBySelect(src2, mid, to, width)
              == GroupBySelect(src2, from, to, width)
  {
    SelectIsRange(src1, from, mid, width);
    SelectIsRange(src2, mid, to, width);
    SelectIsRange(src2, from, to, width);
    RangeFrame(src1, src2, from, mid, width);
    RangeSplit(View(src2, width), from, mid, to);
  }

  lemma RangeSplit(t: Table, lo: int, mid: int, hi: int)
    requires lo <= mid <= hi
    ensures Range(t, lo, mid) + Range(t, mid, hi) == Range(t, lo, hi)
  {
  }

  lemma SelectKeysGrow(src1: Table, src2: Table, from: int, mid: int, to: int, width: int, b: int)
    requires width > 0 && 0 <= from < mid <= to
    requires from % width == 0 && mid % width == 0 && to % width == 0
    requires forall ts | ts in src1 && from <= ts < mid :: ts in src2
    requires b in GroupBySelect(src1, from, mid, width)
    ensures b in GroupBySelect(src2, from, to, width)
  {
    GroupsAreStarts(src1, from, mid, width, b);
    GroupsAreStarts(src2, from, to, width, b);
    InView(src1, width, b);
    InView(src2, width, b);
    AlignedGap(b, mid, width);
  }

  /** Filling up to `to1` and then on to `to2` fills up to `to2`, whether or not the watermark was
      written in between. */
  lemma FillTwice(src1: Table, src2: Table, table: Table, from: int, to1: int, to2: int, width: int, slots: nat)
    requires width > 0 && 0 <= from && to1 <= to2
    requires from % width == 0 && to1 % width == 0 && to2 % width == 0
    requires slots >= 1 ==> forall ts | ts in src1 && from <= ts < to1 :: ts in src2
    requires slots >= 2 ==> AgreeOn(src1, src2, from, to1)
    ensures var mark := if slots < 2 || to1 <= from then from else to1;
            Fill(src2, Fill(src1, table, from, to1, width, slots), mark, to2, width, ROLLUP_SLOTS)
              == Fill(src2, table, from, to2, width, ROLLUP_SLOTS)
  {
    if slots >= 1 && from < to1 {
      var first := GroupBySelect(src1, from, to1, width);
      var rest := GroupBySelect(src2, to1, to2, width);
      var whole := GroupBySelect(src2, from, to2, width);
      if slots == 1 {
        forall b | b in first ensures b in whole {
          SelectKeysGrow(src1, src2, from, to1, to2, width, b);
        }
        OverlayCovered(table, first, whole);
      } else {
        SelectSplit(src1, src2, from, to1, to2, width);
        SelectIsRange(src2, to1, to2, width);
        assert to2 == to1 ==> rest == map[];
        OverlayAssociates(table, first, rest);
      }
    }
  }

  lemma OverlayCovered(t: Table, a: Table, b: Table)
    requires a.Keys <= b.Keys
    ensures t + a + b == t + b
  {
    assert (t + a + b).Keys == t.Keys + a.Keys + b.Keys == t.Keys + b.Keys;
  }

  lemma OverlayAssociates(t: Table, a: Table, b: Table)
    ensures t + a + b == t + (a + b)
    ensures b == map[] ==> a + b == a
  {
  }

  lemma FillAgreesBelow(
    src1: Table, src2: Table, table: Table, from: int, to1: int, to2: int, width: int, slots: nat, lo: int)
    requires width > 0 && 0 <= from && to1 <= to2 && slots >= 1
    requires from % width == 0 && to1 % width == 0 && to2 % width == 0
    requires AgreeOn(src1, src2, from, to1)
    ensures AgreeOn(Fill(src1, table, from, to1, width, slots), Fill(src2, table, from, to2, width, ROLLUP_SLOTS),
                    lo, to1)
  {
    if from < to1 {
      SelectIsView(src1, from, to1, width);
    }
    if from < to2 {
      SelectIsView(src2, from, to2, width);
    }
    forall b | from <= b < to1 && (b in View(src1, width) || b in View(src2, width))
      ensures b in View(src1, width) && b in View(src2, width) && View(src1, width)[b] == View(src2, width)[b]
    {
      InView(src1, width, b);
      InView(src2, width, b);
      AlignedGap(b, to1, width);
      ViewFrame(src1, src2, width, b);
    }
  }

  lemma {:induction false} UpsertKeeps(t: Table, samples: seq<HistorySample>, mark: int)
    requires forall i | 0 <= i < |samples| :: samples[i].ts >= mark
    ensures forall ts | ts in t :: ts in Upsert(t, samples)
    ensures forall ts | ts < mark ::
              (ts in t <==> ts in Upsert(t, samples)) && (ts in t ==> t[ts] == Upsert(t, samples)[ts])
  {
    if |samples| > 0 {
      UpsertKeeps(t, samples[..|samples| - 1], mark);
    }
  }

  function FillStage(db: Db, g: Granularity, now: int, src: Table, slots: nat): Table {
    Fill(src, db.Dest(g), db.Mark(g), BucketStart(now, Width(g)), Width(g), slots)
  }

  lemma LaterClock(now1: int, now2: int, g: Granularity)
    requires now1 <= now2
    ensures BucketStart(now1, Width(g)) <= BucketStart(now2, Width(g))
  {
    if BucketStart(now2, Width(g)) < BucketStart(now1, Width(g)) {
      AlignedGap(BucketStart(now2, Width(g)), BucketStart(now1, Width(g)), Width(g));
    }
  }

  lemma StageRepaired(db: Db, g: Granularity, now1: int, now2: int, slots: nat, src1: Table, src2: Table)
    requires MarksOk(db) && now1 <= now2
    requires slots >= 1 ==> forall ts | ts in src1 && db.Mark(g) <= ts < BucketStart(now1, Width(g)) :: ts in src2
    requires slots >= 2 ==> AgreeOn(src1, src2, db.Mark(g), BucketStart(now1, Width(g)))
    ensures Fill(src2, FillStage(db, g, now1, src1, slots), StageMark(db, g, now1, slots),
                 BucketStart(now2, Width(g)), Width(g), ROLLUP_SLOTS)
              == FillStage(db, g, now2, src2, ROLLUP_SLOTS)
  {
    LaterClock(now1, now2, g);
    FillTwice(src1, src2, db.Dest(g), db.Mark(g), BucketStart(now1, Width(g)), BucketStart(now2, Width(g)),
              Width(g), slots);
  }

  /** What a torn stage left, as far as the next stage of the torn rollup read it, is what the
      complete stage leaves there too. */
  lemma StageSourceAgrees(
    db: Db, finer: Granularity, now1: int, now2: int, slots: nat, src1: Table, src2: Table, lo: int, hi: int)
    requires MarksOk(db) && now1 <= now2 && slots >= 1
    requires AgreeOn(src1, src2, db.Mark(finer), BucketStart(now1, Width(finer)))
    requires hi <= BucketStart(now1, Width(finer))
    ensures AgreeOn(FillStage(db, finer, now1, src1, slots), FillStage(db, finer, now2, src2, ROLLUP_SLOTS), lo, hi)
  {
    LaterClock(now1, now2, finer);
    FillAgreesBelow(src1, src2, db.Dest(finer), db.Mark(finer), BucketStart(now1, Width(finer)),
                    BucketStart(now2, Width(finer)), Width(finer), slots, lo);
  }

  /** A torn rollup that read an earlier state of the raw table than the one there is now. */
  function Torn(db: Db, earlier: Table, now: int, slots: nat): Db {
    RollupSlots(db.(raw := earlier), now, slots).(raw := db.raw)
  }

  /** No unconsumed row of the earlier state is gone, and what the torn rollup closed is as it was. */
  ghost predicate StillThere(db: Db, earlier: Table, now: int, slots: nat) {
    && (forall ts | ts in earlier && ts >= db.Mark(TenSec) :: ts in db.raw)
    && AgreeOn(earlier, db.raw, db.Mark(TenSec), StageMark(db, TenSec, now, slots))
  }

  /** A later rollup that runs to its end makes the database what it would be without the torn one. */
  lemma TornIsRepaired(db: Db, earlier: Table, now1: int, slots: nat, now2: int)
    requires MarksOk(db) && now1 <= now2 && StillThere(db, earlier, now1, slots)
    ensures RollupDb(Torn(db, earlier, now1, slots), now2) == RollupDb(db, now2)
  {
    var before, torn := db.(raw := earlier), Torn(db, earlier, now1, slots);
    SameMarks(before, db);
    RollupMarks(before, now1, slots);
    RollupTables(before, now1, slots);
    SameMarks(torn, RollupSlots(before, now1, slots));
    TablesRepaired(before, now1, now2, slots, db.raw);
    MarksRepaired(db.marks, now1, now2, slots);
    SameRollup(torn, db, now2,
      FillStage(db, TenSec, now2, db.raw, ROLLUP_SLOTS),
      FillStage(db, OneMin, now2, FillStage(db, TenSec, now2, db.raw, ROLLUP_SLOTS), ROLLUP_SLOTS));
  }

  lemma TablesRepaired(db: Db, now1: int, now2: int, slots: nat, raw: Table)
    requires MarksOk(db) && now1 <= now2
    requires forall ts | ts in db.raw && ts >= db.Mark(TenSec) :: ts in raw
    requires AgreeOn(db.raw, raw, db.Mark(TenSec), StageMark(db, TenSec, now1, slots))
    ensures var torn := RollupSlots(db, now1, slots);
            var ten := FillStage(db, TenSec, now2, raw, ROLLUP_SLOTS);
            var one := FillStage(db, OneMin, now2, ten, ROLLUP_SLOTS);
            && Fill(raw, torn.tenSec, StageMark(db, TenSec, now1, slots),
                    BucketStart(now2, Width(TenSec)), Width(TenSec), ROLLUP_SLOTS) == ten
            && Fill(ten, torn.oneMin, StageMark(db, OneMin, now1, Less(slots, 2)),
                    BucketStart(now2, Width(OneMin)), Width(OneMin), ROLLUP_SLOTS) == one
            && Fill(one, torn.fiveMin, StageMark(db, FiveMin, now1, Less(slots, 4)),
                    BucketStart(now2, Width(FiveMin)), Width(FiveMin), ROLLUP_SLOTS)
                 == FillStage(db, FiveMin, now2, one, ROLLUP_SLOTS)
  {
    var torn := RollupSlots(db, now1, slots);
    var ten := FillStage(db, TenSec, now2, raw, ROLLUP_SLOTS);
    var one := FillStage(db, OneMin, now2, ten, ROLLUP_SLOTS);
    RollupTables(db, now1, slots);
    BucketsNest(now1);
    StageRepaired(db, TenSec, now1, now2, slots, db.raw, raw);
    if slots >= 3 {
      StageSourceAgrees(db, TenSec, now1, now2, slots, db.raw, raw, db.Mark(OneMin), BucketStart(now1, Width(OneMin)));
    }
    StageRepaired(db, OneMin, now1, now2, Less(slots, 2), torn.tenSec, ten);
    if slots >= 5 {
      StageSourceAgrees(db, OneMin, now1, now2, Less(slots, 2), torn.tenSec, ten, db.Mark(FiveMin),
                        BucketStart(now1, Width(FiveMin)));
    }
    StageRepaired(db, FiveMin, now1, now2, Less(slots, 4), torn.oneMin, one);
  }

  lemma SameRollup(a: Db, b: Db, now: int, ten: Table, one: Table)
    requires a.raw == b.raw
    requires ten == FillStage(a, TenSec, now, a.raw, ROLLUP_SLOTS) == FillStage(b, TenSec, now, b.raw, ROLLUP_SLOTS)
    requires one == FillStage(a, OneMin, now, ten, ROLLUP_SLOTS) == FillStage(b, OneMin, now, ten, ROLLUP_SLOTS)
    requires FillStage(a, FiveMin, now, one, ROLLUP_SLOTS) == FillStage(b, FiveMin, now, one, ROLLUP_SLOTS)
    requires MarksChain(a.marks, now, ROLLUP_SLOTS) == MarksChain(b.marks, now, ROLLUP_SLOTS)
    ensures RollupDb(a, now) == RollupDb(b, now)
  {
    RollupTables(a, now, ROLLUP_SLOTS);
    RollupTables(b, now, ROLLUP_SLOTS);
    SameDb(RollupDb(a, now), RollupDb(b, now));
  }

  lemma SameDb(a: Db, b: Db)
    requires a.raw == b.raw && a.tenSec == b.tenSec && a.oneMin == b.oneMin && a.fiveMin == b.fiveMin
    requires a.marks == b.marks
    ensures a == b
  {
  }
}
