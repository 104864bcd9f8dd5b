/** The raw table in every run, late samples and biting row caps included: from the last cutoff up it is the
    newest RAW_ROW_CAP rows of what was inserted by the last complete retention pass, and everything inserted
    since. */
module HistoryRaw {
  import opened HistoryTypes
  import opened HistoryDb
  import opened HistoryView
  import opened HistoryTheorems
  import opened HistoryStores

  predicate CapsRaw(e: Event) {
    e.Retain? && e.slots >= RETENTION_SLOTS
  }

  /** Everything inserted by the last pass that reached the row cap. */
  function InsertedAtCap(events: seq<Event>): Table {
    if |events| == 0 then map[]
    else if CapsRaw(events[|events| - 1]) then Inserted(events[..|events| - 1])
    else InsertedAtCap(events[..|events| - 1])
  }

  /** Everything inserted since. */
  function InsertedSinceCap(events: seq<Event>): Table {
    if |events| == 0 || CapsRaw(events[|events| - 1]) then map[]
    else
      var before := InsertedSinceCap(events[..|events| - 1]);
      match events[|events| - 1]
      case Insert(samples) => Upsert(before, samples)
      case _ => before
  }

  /** What the row cap leaves of everything ever inserted. */
  function Capped(events: seq<Event>): Table {
    NewestRows(InsertedAtCap(events), RAW_ROW_CAP) + InsertedSinceCap(events)
  }

  lemma {:induction false} UpsertOver(t: Table, u: Table, samples: seq<HistorySample>)
    ensures Upsert(t + u, samples) == t + Upsert(u, samples)
  {
    if |samples| > 0 {
      UpsertOver(t, u, samples[..|samples| - 1]);
    }
  }

  lemma {:induction false} InsertedSplits(events: seq<Event>)
    ensures Inserted(events) == InsertedAtCap(events) + InsertedSinceCap(events)
  {
    if |events| > 0 {
      var before, e := events[..|events| - 1], events[|events| - 1];
      InsertedSplits(before);
      if e.Insert? {
        UpsertOver(InsertedAtCap(before), InsertedSinceCap(before), e.samples);
      }
    }
  }

  /** Whatever lies beyond the cap of a part lies beyond the cap of the whole. */
  lemma CapTwice(a: Table, b: Table, cap: nat)
    ensures NewestRows(NewestRows(a, cap) + b, cap) == NewestRows(a + b, cap)
  {
    var once, all := NewestRows(a, cap) + b, a + b;
    forall ts
      ensures ts in NewestRows(once, cap) <==> ts in NewestRows(all, cap)
      ensures ts in NewestRows(all, cap) ==> once[ts] == all[ts]
    {
      CapKeepsCount(a, b, cap, ts);
    }
  }

  lemma CapKeepsCount(a: Table, b: Table, cap: nat, ts: int)
    ensures var once, all := NewestRows(a, cap) + b, a + b;
            && (|Newer(once, ts)| < cap <==> |Newer(all, ts)| < cap)
            && (|Newer(all, ts)| < cap ==> (ts in once <==> ts in all))
  {
    var kept := NewestRows(a, cap);
    var once, all := kept + b, a + b;
    SmallerSet(Newer(once, ts), Newer(all, ts));
    SmallerSet(Newer(a, ts), Newer(all, ts));
    SmallerSet(Newer(kept, ts), Newer(once, ts));
    if |Newer(a, ts)| < cap {
      CapKeepsNewer(a, cap, ts);
      assert Newer(once, ts) == Newer(kept, ts) + Newer(b, ts) == Newer(all, ts);
    } else {
      CapIsNewer(a, cap, ts);
    }
  }

  lemma CapKeepsNewer(a: Table, cap: nat, ts: int)
    requires |Newer(a, ts)| < cap
    ensures Newer(NewestRows(a, cap), ts) == Newer(a, ts)
  {
    forall u | u in Newer(a, ts) ensures |Newer(a, u)| < cap {
      SmallerSet(Newer(a, u), Newer(a, ts));
    }
  }

  lemma CapIsNewer(a: Table, cap: nat, ts: int)
    requires |Newer(a, ts)| >= cap
    ensures |Newer(NewestRows(a, cap), ts)| == cap
  {
    NewestRowsCount(a, cap);
    SmallerSet(Newer(a, ts), a.Keys);
    var kept := NewestRows(a, cap);
    forall u | u in kept ensures u > ts {
      if u <= ts {
        SmallerSet(Newer(a, ts), Newer(a, u));
      }
    }
    assert Newer(kept, ts) == kept.Keys;
  }

  lemma CapAgrees(t: Table, u: Table, cap: nat, lo: int)
    requires AgreeFrom(t, u, lo)
    ensures AgreeFrom(NewestRows(t, cap), NewestRows(u, cap), lo)
  {
    forall ts | lo <= ts ensures Newer(t, ts) == Newer(u, ts) {
    }
  }

  lemma {:induction false} UpsertAgrees(t: Table, u: Table, samples: seq<HistorySample>, lo: int)
    requires AgreeFrom(t, u, lo)
    ensures AgreeFrom(Upsert(t, samples), Upsert(u, samples), lo)
  {
    if |samples| > 0 {
      UpsertAgrees(t, u, samples[..|samples| - 1], lo);
    }
  }

  /** How long a table keeps its rows. */
  function KeptFor(name: TableName): int {
    match name
    case SamplesRaw => RAW_MS
    case SamplesRolled(g) => RetentionOf(g)
  }

  function SlotOf(name: TableName): nat {
    match name
    case SamplesRaw => 1
    case SamplesRolled(g) => PruneSlot(g)
  }

  /** No retention pass so far pruned this table beyond this instant. */
  ghost predicate PrunedTo(events: seq<Event>, name: TableName, lo: int) {
    forall e | e in events && e.Retain? && e.slots >= SlotOf(name) :: e.now - KeptFor(name) <= lo
  }

  lemma PassAgrees(db: Db, now: int, slots: nat, u: Table, lo: int)
    requires AgreeFrom(db.raw, u, lo) && (slots >= 1 ==> now - RAW_MS <= lo)
    ensures var after := RetentionSlots(db, now, slots).raw;
            AgreeFrom(after, if slots >= RETENTION_SLOTS then NewestRows(u, RAW_ROW_CAP) else u, lo)
  {
    RetentionRaw(db, now, slots);
    if slots >= 1 {
      assert AgreeFrom(Prune(db.raw, now - RAW_MS), u, lo);
      CapAgrees(Prune(db.raw, now - RAW_MS), u, RAW_ROW_CAP, lo);
    }
  }

  /** In every run the raw table agrees, from the last cutoff up, with what the row cap leaves of everything
      ever inserted. */
  lemma {:induction false} RawIsCapped(events: seq<Event>, lo: int)
    requires PrunedTo(events, SamplesRaw, lo)
    ensures AgreeFrom(Run(Fresh, events).db.raw, Capped(events), lo)
  {
    if |events| > 0 {
      var before, e := events[..|events| - 1], events[|events| - 1];
      var db := Run(Fresh, before).db;
      RawIsCapped(before, lo);
      assert e in events;
      match e
      case Insert(samples) =>
        UpsertAgrees(db.raw, Capped(before), samples, lo);
        UpsertOver(NewestRows(InsertedAtCap(before), RAW_ROW_CAP), InsertedSinceCap(before), samples);
      case Rollup(now, slots) => RollupMarks(db, now, slots);
      case Retain(now, slots) =>
        PassAgrees(db, now, slots, Capped(before), lo);
        if CapsRaw(e) {
          InsertedSplits(before);
          CapTwice(InsertedAtCap(before), InsertedSinceCap(before), RAW_ROW_CAP);
          assert Capped(events) == NewestRows(Inserted(before), RAW_ROW_CAP);
        }
    }
  }

  /** From an instant up the cap cost nothing if, and unless samples inserted since took the place of lost ones
      only if, at most RAW_ROW_CAP of the rows inserted by the last complete pass lie there. */
  lemma CappedIsComplete(events: seq<Event>, lo: int)
    ensures |Newer(InsertedAtCap(events), lo - 1)| <= RAW_ROW_CAP ==> AgreeFrom(Capped(events), Inserted(events), lo)
    ensures InsertedAtCap(events).Keys !! InsertedSinceCap(events).Keys ==>
              (AgreeFrom(Capped(events), Inserted(events), lo) ==>
                 |Newer(InsertedAtCap(events), lo - 1)| <= RAW_ROW_CAP)
  {
    var atCap, since := InsertedAtCap(events), InsertedSinceCap(events);
    InsertedSplits(events);
    if |Newer(atCap, lo - 1)| <= RAW_ROW_CAP {
      CapKeepsFrom(atCap, lo, RAW_ROW_CAP);
    } else if atCap.Keys !! since.Keys && AgreeFrom(Capped(events), Inserted(events), lo) {
      forall ts | ts in atCap && ts >= lo ensures ts in NewestRows(atCap, RAW_ROW_CAP) {
        assert ts in Capped(events) && ts !in since;
      }
      CapKeepsOnlyIfFew(atCap, lo, RAW_ROW_CAP);
    }
  }

  /** And it never makes a row up. */
  lemma CappedIsInserted(events: seq<Event>, ts: int)
    requires ts in Capped(events)
    ensures ts in Inserted(events) && Inserted(events)[ts] == Capped(events)[ts]
  {
    InsertedSplits(events);
  }
}
