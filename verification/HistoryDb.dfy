/** The database as a value, and what each SQL statement of the store does to it. Every function that
    runs several statements takes `slots`, the number of them that run before the database starts
    refusing writes; a crash and an error return stop at the same places. */
module HistoryDb {
  import opened Buckets
  import opened HistoryTypes
  import opened Aggregates

  /** The three rollup stages. Each reads the table just below it. */
  datatype Granularity = TenSec | OneMin | FiveMin

  function Width(g: Granularity): (w: int)
    ensures w > 0
  {
    match g
    case TenSec => BUCKET_10S_MS
    case OneMin => BUCKET_1M_MS
    case FiveMin => BUCKET_5M_MS
  }

  datatype Db = Db(raw: Table, tenSec: Table, oneMin: Table, fiveMin: Table, marks: map<Granularity, int>) {
    /** A watermark that was never written reads as 0. */
    function Mark(g: Granularity): int {
      if g in marks then marks[g] else 0
    }

    function Source(g: Granularity): Table {
      match g
      case TenSec => raw
      case OneMin => tenSec
      case FiveMin => oneMin
    }

    function Dest(g: Granularity): Table {
      match g
      case TenSec => tenSec
      case OneMin => oneMin
      case FiveMin => fiveMin
    }

    function WithDest(g: Granularity, t: Table): Db {
      match g
      case TenSec => this.(tenSec := t)
      case OneMin => this.(oneMin := t)
      case FiveMin => this.(fiveMin := t)
    }

    /** The watermark of the stage that reads `Dest(g)`: rows from here up are not consumed yet. */
    function ConsumedTo(g: Granularity): int {
      match g
      case TenSec => Mark(OneMin)
      case OneMin => Mark(FiveMin)
      case FiveMin => Mark(FiveMin)
    }
  }

  const EmptyDb := Db(map[], map[], map[], map[], map[])

  /** INSERT OR REPLACE, in list order. */
  function Upsert(t: Table, samples: seq<HistorySample>): Table {
    if |samples| == 0 then t
    else
      var last := samples[|samples| - 1];
      Upsert(t, samples[..|samples| - 1])[last.ts := last.row]
  }

  function InsertBatch(db: Db, samples: seq<HistorySample>): Db {
    db.(raw := Upsert(db.raw, samples))
  }

  function Less(slots: nat, used: nat): nat {
    if slots <= used then 0 else slots - used
  }

  /** One rollup stage: nothing when no bucket closed, otherwise the INSERT .. SELECT and then the
      watermark, two separate statements. */
  function RollupStage(db: Db, g: Granularity, now: int, slots: nat): Db {
    var from, to := db.Mark(g), BucketStart(now, Width(g));
    if to <= from || slots == 0 then db
    else
      var filled := db.WithDest(g, db.Dest(g) + GroupBySelect(db.Source(g), from, to, Width(g)));
      if slots == 1 then filled else filled.(marks := filled.marks[g := to])
  }

  const ROLLUP_SLOTS: nat := 6

  function RollupSlots(db: Db, now: int, slots: nat): Db {
    var db1 := RollupStage(db, TenSec, now, slots);
    var db2 := RollupStage(db1, OneMin, now, Less(slots, 2));
    RollupStage(db2, FiveMin, now, Less(slots, 4))
  }

  /** The rollup whose statements all succeed. */
  function RollupDb(db: Db, now: int): Db {
    RollupSlots(db, now, ROLLUP_SLOTS)
  }

  /** DELETE FROM t WHERE ts < cutoff. */
  function Prune(t: Table, cutoff: int): Table {
    map ts | ts in t && ts >= cutoff :: t[ts]
  }

  function Newer(t: Table, ts: int): set<int> {
    set u | u in t && u > ts
  }

  /** DELETE FROM t WHERE ts NOT IN (SELECT ts FROM t ORDER BY ts DESC LIMIT cap). */
  function NewestRows(t: Table, cap: nat): Table {
    map ts | ts in t && |Newer(t, ts)| < cap :: t[ts]
  }

  const RETENTION_SLOTS: nat := 5

  function RetentionSlots(db: Db, now: int, slots: nat): Db {
    var db1 := if slots < 1 then db else db.(raw := Prune(db.raw, now - RAW_MS));
    var db2 := if slots < 2 then db1 else db1.(tenSec := Prune(db1.tenSec, now - RETENTION_10S_MS));
    var db3 := if slots < 3 then db2 else db2.(oneMin := Prune(db2.oneMin, now - RETENTION_1M_MS));
    var db4 := if slots < 4 then db3 else db3.(fiveMin := Prune(db3.fiveMin, now - RETENTION_5M_MS));
    if slots < 5 then db4 else db4.(raw := NewestRows(db4.raw, RAW_ROW_CAP))
  }

  function RetentionDb(db: Db, now: int): Db {
    RetentionSlots(db, now, RETENTION_SLOTS)
  }

  /** The watermarks are non-negative, bucket-aligned and ordered, coarsest first. */
  ghost predicate MarksOk(db: Db) {
    && 0 <= db.Mark(FiveMin) <= db.Mark(OneMin) <= db.Mark(TenSec)
    && forall g: Granularity :: db.Mark(g) % Width(g) == 0
  }

  lemma SameMarks(a: Db, b: Db)
    requires a.marks == b.marks
    ensures forall g: Granularity :: a.Mark(g) == b.Mark(g)
  {
  }

  lemma BucketsNest(now: int)
    ensures BucketStart(now, Width(FiveMin)) <= BucketStart(now, Width(OneMin)) <= BucketStart(now, Width(TenSec))
  {
    CoarserStartsEarlier(now, BUCKET_10S_MS, 6);
    CoarserStartsEarlier(now, BUCKET_1M_MS, 5);
  }

  lemma StageEffect(db: Db, g: Granularity, now: int, slots: nat)
    ensures var after := RollupStage(db, g, now, slots);
            && (forall h: Granularity | h != g :: after.Mark(h) == db.Mark(h) && after.Dest(h) == db.Dest(h))
            && after.Mark(g) == (if slots < 2 || BucketStart(now, Width(g)) <= db.Mark(g) then db.Mark(g)
                                 else BucketStart(now, Width(g)))
            && after.raw == db.raw
  {
    var to := BucketStart(now, Width(g));
    WithDestEffect(db, g, db.Dest(g) + GroupBySelect(db.Source(g), db.Mark(g), to, Width(g)));
  }

  lemma WithDestEffect(db: Db, g: Granularity, t: Table)
    ensures var after := db.WithDest(g, t);
            && after.Dest(g) == t && after.raw == db.raw && after.marks == db.marks
            && forall h: Granularity | h != g :: after.Dest(h) == db.Dest(h)
  {
  }

  /** However far a rollup gets, and wherever the clock stepped to, the watermarks stay well formed,
      never move back, and never pass both their old value and the clock. */
  lemma RollupKeepsMarks(db: Db, now: int, slots: nat)
    requires MarksOk(db)
    ensures MarksOk(RollupSlots(db, now, slots))
    ensures forall g: Granularity :: db.Mark(g) <= RollupSlots(db, now, slots).Mark(g)
    ensures forall g: Granularity ::
              RollupSlots(db, now, slots).Mark(g) > db.Mark(g) ==> RollupSlots(db, now, slots).Mark(g) <= now
  {
    RollupMarks(db, now, slots);
    StageMarksOrdered(db, now, slots, Less(slots, 2), Less(slots, 4));
    forall g: Granularity
      ensures RollupSlots(db, now, slots).Mark(g) % Width(g) == 0
      ensures db.Mark(g) <= RollupSlots(db, now, slots).Mark(g)
      ensures RollupSlots(db, now, slots).Mark(g) > db.Mark(g) ==> RollupSlots(db, now, slots).Mark(g) <= now
    {
      match g
      case TenSec => StageMarkAdvances(db, g, now, slots);
      case OneMin => StageMarkAdvances(db, g, now, Less(slots, 2));
      case FiveMin => StageMarkAdvances(db, g, now, Less(slots, 4));
    }
  }

  lemma StageMarkAdvances(db: Db, g: Granularity, now: int, slots: nat)
    requires db.Mark(g) % Width(g) == 0
    ensures StageMark(db, g, now, slots) % Width(g) == 0
    ensures db.Mark(g) <= StageMark(db, g, now, slots)
    ensures StageMark(db, g, now, slots) > db.Mark(g) ==> StageMark(db, g, now, slots) <= now
  {
  }

  lemma StageMarksOrdered(db: Db, now: int, slots1: nat, slots2: nat, slots3: nat)
    requires MarksOk(db) && (slots3 >= 2 ==> slots2 >= 2) && (slots2 >= 2 ==> slots1 >= 2)
    ensures 0 <= StageMark(db, FiveMin, now, slots3) <= StageMark(db, OneMin, now, slots2)
              <= StageMark(db, TenSec, now, slots1)
  {
    BucketsNest(now);
  }

  lemma RollupMarks(db: Db, now: int, slots: nat)
    ensures var after := RollupSlots(db, now, slots);
            && after.Mark(TenSec) == StageMark(db, TenSec, now, slots)
            && after.Mark(OneMin) == StageMark(db, OneMin, now, Less(slots, 2))
            && after.Mark(FiveMin) == StageMark(db, FiveMin, now, Less(slots, 4))
            && after.raw == db.raw
  {
    var db1 := RollupStage(db, TenSec, now, slots);
    var db2 := RollupStage(db1, OneMin, now, Less(slots, 2));
    StageEffect(db, TenSec, now, slots);
    StageEffect(db1, OneMin, now, Less(slots, 2));
    StageEffect(db2, FiveMin, now, Less(slots, 4));
  }

  function StageMark(db: Db, g: Granularity, now: int, slots: nat): int {
    var to := BucketStart(now, Width(g));
    if slots < 2 || to <= db.Mark(g) then db.Mark(g) else to
  }

  /** A rollup that ran to its end leaves less than one bucket unconsumed at every stage. */
  lemma RollupReaches(db: Db, now: int, g: Granularity)
    ensures RollupDb(db, now).Mark(g) > now - Width(g)
  {
    RollupMarks(db, now, ROLLUP_SLOTS);
  }

  lemma RetentionKeepsMarks(db: Db, now: int, slots: nat)
    ensures RetentionSlots(db, now, slots).marks == db.marks
  {
  }

  /** A closed bucket is closed for good: whatever the raw table holds by then, no later rollup,
      complete or torn, touches a rolled-up row below the watermark. */
  lemma RollupNeverTouchesClosedBuckets(db: Db, now: int, slots: nat, g: Granularity, b: int)
    requires MarksOk(db) && b < db.Mark(g)
    ensures b in RollupSlots(db, now, slots).Dest(g) <==> b in db.Dest(g)
    ensures b in db.Dest(g) ==> RollupSlots(db, now, slots).Dest(g)[b] == db.Dest(g)[b]
  {
    var db1 := RollupStage(db, TenSec, now, slots);
    var db2 := RollupStage(db1, OneMin, now, Less(slots, 2));
    StageEffect(db, TenSec, now, slots);
    StageEffect(db1, OneMin, now, Less(slots, 2));
    StageEffect(db2, FiveMin, now, Less(slots, 4));
    match g
    case TenSec => StageWritesFromMark(db, g, now, slots, b);
    case OneMin => StageWritesFromMark(db1, g, now, Less(slots, 2), b);
    case FiveMin => StageWritesFromMark(db2, g, now, Less(slots, 4), b);
  }

  lemma StageWritesFromMark(db: Db, g: Granularity, now: int, slots: nat, b: int)
    requires 0 <= db.Mark(g) && db.Mark(g) % Width(g) == 0 && b < db.Mark(g)
    ensures b in RollupStage(db, g, now, slots).Dest(g) <==> b in db.Dest(g)
    ensures b in db.Dest(g) ==> RollupStage(db, g, now, slots).Dest(g)[b] == db.Dest(g)[b]
  {
    SelectIsView(db.Source(g), db.Mark(g), BucketStart(now, Width(g)), Width(g));
  }

  lemma NewerSmaller(t: Table, a: int, b: int)
    requires a < b && b in t
    ensures |Newer(t, b)| < |Newer(t, a)|
  {
    assert b in Newer(t, a) && b !in Newer(t, b);
    SmallerSet(Newer(t, b) + {b}, Newer(t, a));
  }

  lemma {:induction false} SmallerSet<T>(a: set<T>, b: set<T>)
    requires a <= b
    ensures |a| <= |b|
  {
    if a != {} {
      var x :| x in a;
      SmallerSet(a - {x}, b - {x});
    }
  }

  lemma Pick<T>(s: set<T>) returns (x: T)
    requires s != {}
    ensures x in s
  {
    x :| x in s;
  }

  lemma {:induction false} LeastKey(s: set<int>) returns (least: int)
    requires s != {}
    ensures least in s && forall x | x in s :: least <= x
  {
    var x := Pick(s);
    var others := s - {x};
    if others == {} {
      least := x;
      assert forall y | y in s :: y == x || y in others;
    } else {
      var rest := LeastKey(others);
      least := if rest < x then rest else x;
      assert forall y | y in s :: y == x || y in others;
    }
  }

  /** The backstop keeps exactly the newest `cap` rows: as many as there are, up to the cap. */
  lemma {:induction false} NewestRowsCount(t: Table, cap: nat)
    ensures |NewestRows(t, cap).Keys| == if |t.Keys| <= cap then |t.Keys| else cap
    ensures forall a, b | a in NewestRows(t, cap) && b in t && a < b :: b in NewestRows(t, cap)
    decreases |t.Keys|
  {
    forall a, b | a in NewestRows(t, cap) && b in t && a < b ensures b in NewestRows(t, cap) {
      NewerSmaller(t, a, b);
    }
    if t.Keys != {} {
      var least := LeastKey(t.Keys);
      var rest := t - {least};
      assert rest.Keys == t.Keys - {least};
      NewestRowsCount(rest, cap);
      forall ts | ts in rest ensures Newer(rest, ts) == Newer(t, ts) {
      }
      assert Newer(t, least) == rest.Keys;
      var kept := NewestRows(t, cap);
      if |rest.Keys| < cap {
        assert kept.Keys == NewestRows(rest, cap).Keys + {least};
      } else {
        assert kept.Keys == NewestRows(rest, cap).Keys;
      }
    } else {
      assert NewestRows(t, cap).Keys == {};
    }
  }
}
