/** Writer and store together: which accepted samples the rollups can miss, and how many. */
module HistoryPipeline {
  import opened Options
  import opened Buckets
  import opened HistoryTypes
  import opened Aggregates
  import opened HistoryDb
  import opened HistoryView
  import opened HistoryTheorems
  import opened HistoryWriters
  import opened WriterTheorems

  /** One clock that does not step back stamps the samples and dates the passes, and what is recorded is the last
      sample stamped. Any time may pass between stamping and recording, and any statement may fail. */
  ghost predicate InOrder(sys: System, a: Action)
    requires Enabled(sys.writer, a)
  {
    match a
    case Stamp(ts) => ts >= sys.clock
    case Record(sample) => sys.stamped == Some(sample.ts)
    case Maintain(pass) => pass.now >= sys.clock
    case _ => true
  }

  ghost predicate InOrderRun(sys: System, actions: seq<Action>)
    requires Possible(sys, actions)
    decreases |actions|
  {
    actions != [] ==> InOrder(sys, actions[0]) && InOrderRun(SystemStep(sys, actions[0]), actions[1..])
  }

  /** A pass deletes nothing its own rollup, however far it got, left unconsumed. */
  ghost predicate KeepsRows(sys: System, a: Action)
    requires Enabled(sys.writer, a)
  {
    a.Maintain? ==> RetentionSafe(RollupSlots(sys.trace.db, a.pass.now, a.pass.rollupSlots), a.pass.now)
  }

  ghost predicate KeepsRowsRun(sys: System, actions: seq<Action>)
    requires Possible(sys, actions)
    decreases |actions|
  {
    actions != [] ==> KeepsRows(sys, actions[0]) && KeepsRowsRun(SystemStep(sys, actions[0]), actions[1..])
  }

  /** Some maintenance pass closed this sample's bucket while the sample was in the buffer or the channel, or
      stamped but not recorded. */
  ghost predicate ClosedInFlight(log: seq<Closing>, i: nat, ts: int) {
    exists m :: 0 <= m < |log| && ClosedBy(log[m], i, ts)
  }

  predicate ClosedBy(c: Closing, i: nat, ts: int) {
    && (c.first <= i < c.first + c.count || (i == c.first + c.count && c.stamped == Some(ts)))
    && c.before <= ts < c.after
  }

  const WAITING_LIMIT: nat := CHANNEL_CAPACITY + BATCH_SIZE - 1

  ghost predicate LogOk(log: seq<Closing>, mark: int) {
    && (forall m | 0 <= m < |log| :: log[m].before <= log[m].after <= mark && log[m].count <= WAITING_LIMIT)
    && (forall m, n | 0 <= m < n < |log| :: log[m].after <= log[n].before)
  }

  // ----- which samples come late

  /** Which accepted samples are late, or will be, as far as the passes so far decide it. */
  ghost predicate LateKnown(sys: System) {
    var mark := sys.trace.db.Mark(TenSec);
    && MarksOk(sys.trace.db) && mark <= sys.clock && LogOk(sys.log, mark) && sys.handed <= sys.accepted
    && (forall i | 0 <= i < |sys.accepted| :: sys.accepted[i].ts <= sys.clock)
    && (forall i | |sys.handed| <= i < |sys.accepted| && sys.accepted[i].ts < mark ::
          ClosedInFlight(sys.log, i, sys.accepted[i].ts))
    && (sys.stamped.Some? ==>
          && sys.stamped.value <= sys.clock
          && (sys.stamped.value < mark ==> ClosedInFlight(sys.log, |sys.accepted|, sys.stamped.value)))
    && (forall i | i in sys.late :: i < |sys.handed| && ClosedInFlight(sys.log, i, sys.accepted[i].ts))
    && (forall i | 0 <= i < |sys.handed| && ClosedInFlight(sys.log, i, sys.accepted[i].ts) :: i in sys.late)
  }

  lemma ClosedIsPast(log: seq<Closing>, mark: int, i: nat, ts: int)
    requires LogOk(log, mark) && ClosedInFlight(log, i, ts)
    ensures ts < mark
  {
    var m :| 0 <= m < |log| && ClosedBy(log[m], i, ts);
  }

  lemma LateNowIs(sys: System, batch: seq<HistorySample>, i: nat)
    requires i < |sys.handed + batch|
    ensures i in LateNow(sys, batch) <==>
            |sys.handed| <= i && (sys.handed + batch)[i].ts < sys.trace.db.Mark(TenSec)
  {
    if i >= |sys.handed| {
      assert (sys.handed + batch)[i] == batch[i - |sys.handed|];
    }
  }

  lemma FlushLate(sys: System, batch: seq<HistorySample>, i: nat)
    requires LateKnown(sys) && sys.handed + batch <= sys.accepted && i < |sys.handed + batch|
    ensures i in sys.late + LateNow(sys, batch) <==> ClosedInFlight(sys.log, i, sys.accepted[i].ts)
  {
    LateNowIs(sys, batch, i);
    assert (sys.handed + batch)[i] == sys.accepted[i];
    if i >= |sys.handed| && ClosedInFlight(sys.log, i, sys.accepted[i].ts) {
      ClosedIsPast(sys.log, sys.trace.db.Mark(TenSec), i, sys.accepted[i].ts);
    }
  }

  lemma LateNowBounded(sys: System, batch: seq<HistorySample>)
    ensures forall i | i in LateNow(sys, batch) :: i < |sys.handed + batch|
  {
  }

  lemma FlushKeepsLate(sys: System, batch: seq<HistorySample>, trace: Trace, failed: set<nat>)
    requires LateKnown(sys) && sys.handed + batch <= sys.accepted && trace.db.marks == sys.trace.db.marks
    ensures LateKnown(sys.(handed := sys.handed + batch, late := sys.late + LateNow(sys, batch),
                           failed := failed, trace := trace))
  {
    SameMarks(sys.trace.db, trace.db);
    LateNowBounded(sys, batch);
    forall i: nat | i < |sys.handed + batch|
      ensures i in sys.late + LateNow(sys, batch) <==> ClosedInFlight(sys.log, i, sys.accepted[i].ts)
    {
      FlushLate(sys, batch, i);
    }
  }

  lemma ClosedStays(log: seq<Closing>, c: Closing, i: nat, ts: int)
    ensures ClosedInFlight(log + [c], i, ts) <==> ClosedInFlight(log, i, ts) || ClosedBy(c, i, ts)
  {
    if ClosedInFlight(log, i, ts) {
      var m :| 0 <= m < |log| && ClosedBy(log[m], i, ts);
      assert ClosedBy((log + [c])[m], i, ts);
    }
    if ClosedBy(c, i, ts) {
      assert ClosedBy((log + [c])[|log|], i, ts);
    }
    if ClosedInFlight(log + [c], i, ts) {
      var m :| 0 <= m < |log + [c]| && ClosedBy((log + [c])[m], i, ts);
      assert m < |log| ==> ClosedBy(log[m], i, ts);
    }
  }

  lemma PassMoves(trace: Trace, m: Maintenance)
    requires MarksOk(trace.db)
    ensures var after := AfterPass(trace, m);
            && MarksOk(after.db) && after.onTime == trace.onTime
            && trace.db.Mark(TenSec) <= after.db.Mark(TenSec) <= Max(trace.db.Mark(TenSec), m.now)
  {
    var rolled := RollupSlots(trace.db, m.now, m.rollupSlots);
    RollupKeepsMarks(trace.db, m.now, m.rollupSlots);
    RetentionKeepsMarks(rolled, m.now, m.retainSlots);
    SameMarks(rolled, RetentionSlots(rolled, m.now, m.retainSlots));
  }

  lemma PassKeepsLate(sys: System, m: Maintenance)
    requires Conserved(sys) && LateKnown(sys) && m.now >= sys.clock
    ensures LateKnown(Maintained(sys, m))
  {
    PassMoves(sys.trace, m);
    WaitingIsFew(sys);
    AdvanceKeepsLate(sys, AfterPass(sys.trace, m), m.now);
  }

  lemma AdvanceKeepsLate(sys: System, trace: Trace, now: int)
    requires LateKnown(sys) && now >= sys.clock && MarksOk(trace.db)
    requires sys.trace.db.Mark(TenSec) <= trace.db.Mark(TenSec) <= Max(sys.trace.db.Mark(TenSec), now)
    requires |sys.writer.buffer| + |SamplesOf(sys.writer.channel)| == |sys.accepted| - |sys.handed| <= WAITING_LIMIT
    ensures LateKnown(Advanced(sys, trace, now))
  {
    var mark, mark' := sys.trace.db.Mark(TenSec), trace.db.Mark(TenSec);
    var c := Closing(|sys.handed|, |sys.accepted| - |sys.handed|, sys.stamped, mark, mark');
    forall i: nat | i < |sys.accepted|
      ensures ClosedInFlight(sys.log + [c], i, sys.accepted[i].ts) <==>
              ClosedInFlight(sys.log, i, sys.accepted[i].ts)
              || (|sys.handed| <= i && mark <= sys.accepted[i].ts < mark')
    {
      ClosedStays(sys.log, c, i, sys.accepted[i].ts);
    }
    if sys.stamped.Some? {
      ClosedStays(sys.log, c, |sys.accepted|, sys.stamped.value);
    }
  }

  lemma {:induction false} SamplesOfLength(channel: seq<Msg>)
    ensures |SamplesOf(channel)| <= |channel|
  {
    if channel != [] {
      SamplesOfLength(channel[1..]);
    }
  }

  lemma WaitingIsFew(sys: System)
    requires Conserved(sys)
    ensures |sys.writer.buffer| + |SamplesOf(sys.writer.channel)| == |sys.accepted| - |sys.handed| <= WAITING_LIMIT
  {
    SamplesOfLength(sys.writer.channel);
  }

  lemma StampKeepsLate(sys: System, ts: int)
    requires LateKnown(sys) && ts >= sys.clock
    ensures LateKnown(SystemStep(sys, Stamp(ts)))
  {
  }

  lemma RecordKeepsLate(sys: System, sample: HistorySample)
    requires LateKnown(sys) && sys.stamped == Some(sample.ts)
    ensures LateKnown(sys.(accepted := sys.accepted + [sample], stamped := None))
    ensures LateKnown(sys.(stamped := None))
  {
  }

  lemma SameLate(sys: System, writer: Writer, attempts: nat, stopAt: Option<nat>)
    requires LateKnown(sys)
    ensures LateKnown(sys.(writer := writer, attempts := attempts, stopAt := stopAt))
  {
  }

  lemma FilledIsNext(sys: System, a: Action)
    requires Conserved(sys) && a.Receive? && Enabled(sys.writer, a)
    ensures sys.accepted == sys.handed + Filled(sys.writer, a) + SamplesOf(WriterStep(sys.writer, a).channel)
  {
    ReceiveSplits(sys.writer, a);
    Regroup(sys.handed, sys.writer.buffer, SamplesOf(sys.writer.channel),
            sys.handed, Filled(sys.writer, a), SamplesOf(WriterStep(sys.writer, a).channel), Filled(sys.writer, a));
  }

  lemma ReceiveKeepsLate(sys: System, a: Action)
    requires Conserved(sys) && LateKnown(sys) && a.Receive? && Enabled(sys.writer, a)
    ensures LateKnown(Flushed(sys, a))
  {
    FilledIsNext(sys, a);
    var flushed := Flushed(sys, a);
    if Flushes(sys.writer, a) && Filled(sys.writer, a) != [] {
      FlushKeepsLate(sys, Filled(sys.writer, a), flushed.trace, flushed.failed);
    }
  }

  lemma StepKeepsLate(sys: System, a: Action)
    requires Conserved(sys) && LateKnown(sys) && Enabled(sys.writer, a) && InOrder(sys, a)
    ensures LateKnown(SystemStep(sys, a))
  {
    var w := WriterStep(sys.writer, a);
    match a
    case Stamp(ts) => StampKeepsLate(sys, ts);
    case Record(sample) =>
      RecordKeepsLate(sys, sample);
      var grown := if w.dropped == sys.writer.dropped then sys.(accepted := sys.accepted + [sample], stamped := None)
                   else sys.(stamped := None);
      SameLate(grown, w, sys.attempts + 1, sys.stopAt);
    case SendStop => SameLate(sys, w, sys.attempts, SystemStep(sys, a).stopAt);
    case Receive(_, _) =>
      ReceiveKeepsLate(sys, a);
      SameLate(Flushed(sys, a), w, sys.attempts, sys.stopAt);
    case Maintain(pass) =>
      PassKeepsLate(sys, pass);
      SameLate(Maintained(sys, pass), w, sys.attempts, sys.stopAt);
  }

  lemma {:induction false} RunKeepsLate(sys: System, actions: seq<Action>)
    requires Conserved(sys) && LateKnown(sys) && Possible(sys, actions) && InOrderRun(sys, actions)
    ensures Conserved(SystemRun(sys, actions)) && LateKnown(SystemRun(sys, actions))
    decreases |actions|
  {
    if actions != [] {
      StepKeepsLate(sys, actions[0]);
      StepConserves(sys, actions[0]);
      RunKeepsLate(SystemStep(sys, actions[0]), actions[1..]);
    }
  }

  lemma NewSystemLate()
    ensures Conserved(NewSystem) && LateKnown(NewSystem)
  {
    FreshInv();
  }

  /** A sample handed over comes below the 10s watermark, and so too late for the rollups, if and only if a pass
      closed its bucket while it was in the buffer or the channel, or stamped but not recorded. */
  lemma LateIffClosedInFlight(actions: seq<Action>, i: nat)
    requires Possible(NewSystem, actions) && InOrderRun(NewSystem, actions)
    requires i < |SystemRun(NewSystem, actions).handed|
    ensures var sys := SystemRun(NewSystem, actions);
            i in sys.late <==> ClosedInFlight(sys.log, i, sys.handed[i].ts)
  {
    NewSystemLate();
    RunKeepsLate(NewSystem, actions);
    var sys := SystemRun(NewSystem, actions);
    assert sys.handed[i] == sys.accepted[i];
  }

  /** The late samples whose bucket the m-th maintenance pass closed. */
  ghost function MissedBy(sys: System, m: nat): set<nat>
    requires m < |sys.log|
  {
    set i | i in sys.late && i < |sys.accepted| && sys.log[m].before <= sys.accepted[i].ts < sys.log[m].after
  }

  lemma {:induction false} IntervalSize(lo: nat, n: nat)
    ensures |Interval(lo, n)| == n
    ensures forall i: nat :: i in Interval(lo, n) <==> lo <= i < lo + n
  {
    if n > 0 {
      IntervalSize(lo, n - 1);
    }
  }

  lemma LogDisjoint(log: seq<Closing>, mark: int, k: nat, m: nat, ts: int)
    requires LogOk(log, mark) && k < |log| && m < |log|
    requires log[k].before <= ts < log[k].after && log[m].before <= ts < log[m].after
    ensures k == m
  {
  }

  /** Each maintenance pass costs at most a full channel, a short buffer, and the sample being made, whatever
      statements fail. */
  lemma MaintenanceMissesFew(actions: seq<Action>, m: nat)
    requires Possible(NewSystem, actions) && InOrderRun(NewSystem, actions)
    requires m < |SystemRun(NewSystem, actions).log|
    ensures |MissedBy(SystemRun(NewSystem, actions), m)| <= CHANNEL_CAPACITY + BATCH_SIZE
  {
    NewSystemLate();
    RunKeepsLate(NewSystem, actions);
    var sys := SystemRun(NewSystem, actions);
    var c := sys.log[m];
    IntervalSize(c.first, c.count + 1);
    forall i | i in MissedBy(sys, m) ensures i in Interval(c.first, c.count + 1) {
      var k :| 0 <= k < |sys.log| && ClosedBy(sys.log[k], i, sys.accepted[i].ts);
      LogDisjoint(sys.log, sys.trace.db.Mark(TenSec), k, m, sys.accepted[i].ts);
    }
    SmallerSet(MissedBy(sys, m), Interval(c.first, c.count + 1));
  }

  // ----- what the rollups make of the others

  /** The samples handed over, in order, but for the missing ones. */
  function RowsOf(handed: seq<HistorySample>, missing: set<nat>): Table {
    if handed == [] then map[]
    else
      var n := |handed| - 1;
      var before := RowsOf(handed[..n], missing);
      if n in missing then before else before[handed[n].ts := handed[n].row]
  }

  lemma {:induction false} RowsOfBatch(
    handed: seq<HistorySample>, missing: set<nat>, batch: seq<HistorySample>, missing': set<nat>, mark: int)
    requires forall i | 0 <= i < |handed| :: i in missing <==> i in missing'
    requires forall j | 0 <= j < |batch| :: |handed| + j in missing' <==> batch[j].ts < mark
    ensures RowsOf(handed + batch, missing') == OnTimeUpsert(RowsOf(handed, missing), batch, mark)
    decreases |batch|
  {
    if batch == [] {
      assert handed + batch == handed;
      RowsOfSame(handed, missing, missing');
    } else {
      var n := |batch| - 1;
      RowsOfBatch(handed, missing, batch[..n], missing', mark);
      assert (handed + batch)[..|handed| + n] == handed + batch[..n];
    }
  }

  lemma {:induction false} RowsOfFailed(
    handed: seq<HistorySample>, missing: set<nat>, batch: seq<HistorySample>, missing': set<nat>)
    requires forall i | 0 <= i < |handed| :: i in missing <==> i in missing'
    requires forall i: nat | |handed| <= i < |handed| + |batch| :: i in missing'
    ensures RowsOf(handed + batch, missing') == RowsOf(handed, missing)
    decreases |batch|
  {
    if batch == [] {
      assert handed + batch == handed;
      RowsOfSame(handed, missing, missing');
    } else {
      var n := |batch| - 1;
      RowsOfFailed(handed, missing, batch[..n], missing');
      assert (handed + batch)[..|handed| + n] == handed + batch[..n];
    }
  }

  lemma {:induction false} RowsOfSame(handed: seq<HistorySample>, missing: set<nat>, missing': set<nat>)
    requires forall i | 0 <= i < |handed| :: i in missing <==> i in missing'
    ensures RowsOf(handed, missing) == RowsOf(handed, missing')
  {
    if handed != [] {
      RowsOfSame(handed[..|handed| - 1], missing, missing');
    }
  }

  /** The j-th sample is the last one at this millisecond that is not missing. */
  ghost predicate LastAt(handed: seq<HistorySample>, missing: set<nat>, ts: int, j: nat) {
    && j < |handed| && j !in missing && handed[j].ts == ts
    && forall k | j < k < |handed| && handed[k].ts == ts :: k in missing
  }

  lemma {:induction false} RowsOfLast(handed: seq<HistorySample>, missing: set<nat>, ts: int)
    ensures ts in RowsOf(handed, missing) <==> exists j: nat :: LastAt(handed, missing, ts, j)
    ensures forall j: nat | LastAt(handed, missing, ts, j) ::
              ts in RowsOf(handed, missing) && RowsOf(handed, missing)[ts] == handed[j].row
  {
    if handed != [] {
      var n := |handed| - 1;
      RowsOfLast(handed[..n], missing, ts);
      if n !in missing && handed[n].ts == ts {
        assert LastAt(handed, missing, ts, n);
      } else {
        forall j: nat ensures LastAt(handed, missing, ts, j) <==> LastAt(handed[..n], missing, ts, j) {
          LastAtPrefix(handed, missing, ts, j);
        }
      }
    }
  }

  lemma LastAtPrefix(handed: seq<HistorySample>, missing: set<nat>, ts: int, j: nat)
    requires handed != [] && (|handed| - 1 in missing || handed[|handed| - 1].ts != ts)
    ensures LastAt(handed, missing, ts, j) <==> LastAt(handed[..|handed| - 1], missing, ts, j)
  {
    var n := |handed| - 1;
    if LastAt(handed[..n], missing, ts, j) {
      forall k | j < k < |handed| && handed[k].ts == ts ensures k in missing {
        assert k < n ==> handed[..n][k].ts == ts;
      }
    }
    if LastAt(handed, missing, ts, j) {
      forall k | j < k < n && handed[..n][k].ts == ts ensures k in missing {
        assert handed[k].ts == ts;
      }
    }
  }

  ghost function Missing(sys: System): set<nat> {
    sys.late + sys.failed
  }

  /** The data the rollups agree with is what was handed over, but for the late samples and the failed batches. */
  ghost predicate RowsKnown(sys: System) {
    && Inv(sys.trace) && sys.trace.onTime == RowsOf(sys.handed, Missing(sys))
    && forall i | i in Missing(sys) :: i < |sys.handed|
  }

  lemma CommitKeepsRows(sys: System, batch: seq<HistorySample>)
    requires RowsKnown(sys)
    ensures RowsKnown(sys.(handed := sys.handed + batch, late := sys.late + LateNow(sys, batch),
                           trace := Step(sys.trace, Insert(batch))))
  {
    InsertKeepsInv(sys.trace, batch);
    LateNowBounded(sys, batch);
    var mark, missing := sys.trace.db.Mark(TenSec), sys.late + LateNow(sys, batch) + sys.failed;
    forall j | 0 <= j < |batch| ensures |sys.handed| + j in missing <==> batch[j].ts < mark {
      assert |sys.handed| + j !in Missing(sys);
    }
    forall i | 0 <= i < |sys.handed| ensures i in Missing(sys) <==> i in missing {
      LateNowIs(sys, batch, i);
    }
    RowsOfBatch(sys.handed, Missing(sys), batch, missing, mark);
  }

  lemma FailureKeepsRows(sys: System, batch: seq<HistorySample>)
    requires RowsKnown(sys)
    ensures RowsKnown(sys.(handed := sys.handed + batch, late := sys.late + LateNow(sys, batch),
                           failed := sys.failed + Interval(|sys.handed|, |batch|)))
  {
    var missing := sys.late + LateNow(sys, batch) + (sys.failed + Interval(|sys.handed|, |batch|));
    FailureMisses(sys, batch, missing);
    RowsOfFailed(sys.handed, Missing(sys), batch, missing);
  }

  lemma FailureMisses(sys: System, batch: seq<HistorySample>, missing: set<nat>)
    requires missing == sys.late + LateNow(sys, batch) + (sys.failed + Interval(|sys.handed|, |batch|))
    requires forall i | i in Missing(sys) :: i < |sys.handed|
    ensures forall i | i in missing :: i < |sys.handed + batch|
    ensures forall i | 0 <= i < |sys.handed| :: i in Missing(sys) <==> i in missing
    ensures forall i: nat | |sys.handed| <= i < |sys.handed| + |batch| :: i in missing
  {
    IntervalSize(|sys.handed|, |batch|);
    LateNowBounded(sys, batch);
    forall i | 0 <= i < |sys.handed| ensures i in Missing(sys) <==> i in missing {
      LateNowIs(sys, batch, i);
    }
  }

  lemma PassKeepsRows(trace: Trace, m: Maintenance)
    requires Inv(trace) && RetentionSafe(RollupSlots(trace.db, m.now, m.rollupSlots), m.now)
    ensures Inv(AfterPass(trace, m)) && AfterPass(trace, m).onTime == trace.onTime
  {
    RollupKeepsInv(trace, m.now, m.rollupSlots);
    RetentionKeepsInv(Step(trace, Rollup(m.now, m.rollupSlots)), m.now, m.retainSlots);
  }

  lemma SameRows(sys: System, after: System)
    requires RowsKnown(sys) && Inv(after.trace) && after.trace.onTime == sys.trace.onTime
    requires after.handed == sys.handed && after.late == sys.late && after.failed == sys.failed
    ensures RowsKnown(after)
  {
  }

  lemma StepKeepsRows(sys: System, a: Action)
    requires RowsKnown(sys) && Enabled(sys.writer, a) && KeepsRows(sys, a)
    ensures RowsKnown(SystemStep(sys, a))
  {
    match a
    case Receive(_, commits) =>
      var batch := Filled(sys.writer, a);
      if Flushes(sys.writer, a) && batch != [] {
        if commits {
          CommitKeepsRows(sys, batch);
        } else {
          FailureKeepsRows(sys, batch);
        }
      }
      SameRows(Flushed(sys, a), SystemStep(sys, a));
    case Maintain(pass) =>
      PassKeepsRows(sys.trace, pass);
      SameRows(sys, SystemStep(sys, a));
    case _ => SameRows(sys, SystemStep(sys, a));
  }

  lemma {:induction false} RunKeepsRows(sys: System, actions: seq<Action>)
    requires RowsKnown(sys) && Possible(sys, actions) && KeepsRowsRun(sys, actions)
    ensures RowsKnown(SystemRun(sys, actions))
    decreases |actions|
  {
    if actions != [] {
      StepKeepsRows(sys, actions[0]);
      RunKeepsRows(SystemStep(sys, actions[0]), actions[1..]);
    }
  }

  /** Where the closed 10s bucket of this millisecond is unpruned the table holds the mean of the data on time. */
  ghost predicate BucketIsMean(tr: Trace, ts: int) {
    var b := BucketStart(ts, BUCKET_10S_MS);
    tr.Cut(TenSec) <= b < tr.db.Mark(TenSec) ==>
      b in tr.db.tenSec && tr.db.tenSec[b] == MeanRow(tr.onTime, b, b + BUCKET_10S_MS)
  }

  lemma OnTimeBucketIsMean(tr: Trace, ts: int)
    requires Inv(tr) && ts in tr.onTime
    ensures BucketIsMean(tr, ts)
  {
    CascadeCovers(tr.onTime, TenSec, ts);
    assert LevelOk(tr.db.Dest(TenSec), Cascade(tr.onTime, TenSec), tr.db.Mark(TenSec), tr.db.ConsumedTo(TenSec),
                   tr.Cut(TenSec));
  }

  /** A sample handed over is lost to the rollups when its batch failed, or a pass closed its bucket in flight. */
  ghost predicate Lost(sys: System, i: nat)
    requires i < |sys.handed|
  {
    i in sys.failed || ClosedInFlight(sys.log, i, sys.handed[i].ts)
  }

  /** The j-th sample handed over is the last one at this millisecond that is not lost. */
  ghost predicate LastNotLost(sys: System, ts: int, j: nat) {
    && j < |sys.handed| && sys.handed[j].ts == ts && !Lost(sys, j)
    && forall k: nat | j < k < |sys.handed| && sys.handed[k].ts == ts :: Lost(sys, k)
  }

  /** The pipeline theorem: the data the rollups agree with has a row at a millisecond if and only if some sample
      handed over for it is not lost, the row is that of the last such sample, and its closed 10s bucket holds the
      mean of that data. */
  lemma RollupsHoldWhatIsNotLost(actions: seq<Action>, ts: int)
    requires Possible(NewSystem, actions) && InOrderRun(NewSystem, actions) && KeepsRowsRun(NewSystem, actions)
    ensures var sys := SystemRun(NewSystem, actions);
            && (ts in sys.trace.onTime <==> exists j: nat :: LastNotLost(sys, ts, j))
            && (forall j: nat | LastNotLost(sys, ts, j) ::
                  ts in sys.trace.onTime && sys.trace.onTime[ts] == sys.handed[j].row)
            && (ts in sys.trace.onTime ==> BucketIsMean(sys.trace, ts))
  {
    NewSystemLate();
    RunKeepsLate(NewSystem, actions);
    RunKeepsRows(NewSystem, actions);
    var sys := SystemRun(NewSystem, actions);
    forall i: nat | i < |sys.handed| ensures i in Missing(sys) <==> Lost(sys, i) {
      assert sys.handed[i] == sys.accepted[i];
    }
    LastsAgree(sys, ts);
    RowsOfLast(sys.handed, Missing(sys), ts);
    if ts in sys.trace.onTime {
      OnTimeBucketIsMean(sys.trace, ts);
    }
  }

  lemma LastsAgree(sys: System, ts: int)
    requires forall i: nat | i < |sys.handed| :: i in Missing(sys) <==> Lost(sys, i)
    ensures forall j: nat :: LastAt(sys.handed, Missing(sys), ts, j) <==> LastNotLost(sys, ts, j)
  {
  }

  /** In particular a sample alone at its millisecond is aggregated if and only if it is not lost. */
  lemma HandedSampleIsAggregatedIff(actions: seq<Action>, i: nat)
    requires Possible(NewSystem, actions) && InOrderRun(NewSystem, actions) && KeepsRowsRun(NewSystem, actions)
    requires i < |SystemRun(NewSystem, actions).handed|
    ensures var sys := SystemRun(NewSystem, actions);
            var ts := sys.handed[i].ts;
            && (!Lost(sys, i) ==> ts in sys.trace.onTime && BucketIsMean(sys.trace, ts))
            && (Lost(sys, i) && (forall k: nat | k < |sys.handed| && k != i :: sys.handed[k].ts != ts) ==>
                  ts !in sys.trace.onTime)
  {
    NewSystemLate();
    RunKeepsLate(NewSystem, actions);
    RunKeepsRows(NewSystem, actions);
    var sys := SystemRun(NewSystem, actions);
    RollupsHoldWhatIsNotLost(actions, sys.handed[i].ts);
    if !Lost(sys, i) {
      var j := LastFrom(sys, i);
    }
  }

  lemma {:induction false} LastFrom(sys: System, i: nat) returns (j: nat)
    requires i < |sys.handed| && !Lost(sys, i)
    ensures LastNotLost(sys, sys.handed[i].ts, j)
    decreases |sys.handed| - i
  {
    if k: nat :| i < k < |sys.handed| && sys.handed[k].ts == sys.handed[i].ts && !Lost(sys, k) {
      j := LastFrom(sys, k);
    } else {
      j := i;
    }
  }

  // ----- the sample being made

  lemma FirstPass(m: Maintenance)
    requires m == FIRST_PASS
    ensures RetentionSafe(RollupSlots(EmptyDb, m.now, m.rollupSlots), m.now)
    ensures var after := AfterPass(Fresh, m); after.db.Mark(TenSec) == BUCKET_10S_MS && after.onTime == map[]
  {
    var rolled := RollupDb(EmptyDb, m.now);
    RollupMarks(EmptyDb, m.now, ROLLUP_SLOTS);
    AlignedIsBucketStart(m.now, m.now, BUCKET_10S_MS);
    assert Newer(rolled.raw, rolled.Mark(TenSec) - 1) == {};
    RetentionSafeAfterRollup(EmptyDb, m.now);
    RetentionKeepsMarks(rolled, m.now, RETENTION_SLOTS);
    SameMarks(rolled, RetentionDb(rolled, m.now));
  }

  ghost predicate Proper(sys: System, a: Action) {
    Enabled(sys.writer, a) && InOrder(sys, a) && KeepsRows(sys, a)
  }

  ghost predicate ProperRun(sys: System, actions: seq<Action>) {
    Possible(sys, actions) && InOrderRun(sys, actions) && KeepsRowsRun(sys, actions)
  }

  lemma ActionFirst(sys: System, a: Action, rest: seq<Action>)
    requires Proper(sys, a) && ProperRun(SystemStep(sys, a), rest)
    ensures ProperRun(sys, [a] + rest)
    ensures SystemRun(sys, [a] + rest) == SystemRun(SystemStep(sys, a), rest)
  {
    assert ([a] + rest)[1..] == rest;
  }

  lemma ActionLast(sys: System, a: Action)
    requires Proper(sys, a)
    ensures ProperRun(sys, [a]) && SystemRun(sys, [a]) == SystemStep(sys, a)
  {
    assert [a][1..] == [] && Possible(SystemStep(sys, a), []);
  }

  lemma NoOnTime(sample: HistorySample, mark: int)
    requires sample.ts < mark
    ensures OnTimeUpsert(map[], [sample], mark) == map[]
  {
    assert [sample][..0] == [];
    assert OnTimeUpsert(map[], [], mark) == map[];
  }

  /** From here on these actions lose the sample to the rollups. */
  ghost predicate Loses(sys: System, actions: seq<Action>, sample: HistorySample) {
    && ProperRun(sys, actions)
    && var end := SystemRun(sys, actions);
       end.handed == [sample] && end.failed == sys.failed && sample.ts !in end.trace.onTime && end.log == sys.log
  }

  /** Nothing handed over yet, and the clock of the rollups is past the sample. */
  ghost predicate Passed(sys: System, writer: Writer, sample: HistorySample) {
    && sys.writer == writer.(received := sys.writer.received)
    && sys.handed == [] && sys.trace.onTime == map[] && sys.trace.db.Mark(TenSec) > sample.ts
  }

  lemma LosesFirst(sys: System, a: Action, next: System, rest: seq<Action>, sample: HistorySample)
    requires Proper(sys, a) && SystemStep(sys, a) == next && next.log == sys.log && next.failed == sys.failed
    requires Loses(next, rest, sample)
    ensures Loses(sys, [a] + rest, sample)
  {
    ActionFirst(sys, a, rest);
  }

  lemma LosesNow(sys: System, a: Action, sample: HistorySample)
    requires Proper(sys, a)
    requires var end := SystemStep(sys, a);
             end.handed == [sample] && end.failed == sys.failed && sample.ts !in end.trace.onTime && end.log == sys.log
    ensures Loses(sys, [a], sample)
  {
    ActionLast(sys, a);
  }

  lemma FlushLoses(sys: System, sample: HistorySample)
    requires Passed(sys, NewWriter.(buffer := [sample]), sample)
    ensures Loses(sys, [Receive(Timeout, true)], sample)
  {
    NoOnTime(sample, sys.trace.db.Mark(TenSec));
    LosesNow(sys, Receive(Timeout, true), sample);
  }

  lemma ReceiveLoses(sys: System, sample: HistorySample)
    requires Passed(sys, NewWriter.(channel := [Sample(sample)]), sample)
    ensures Loses(sys, [Receive(Message(0), true)] + [Receive(Timeout, true)], sample)
  {
    var a := Receive(Message(0), true);
    var next := sys.(writer := NewWriter.(buffer := [sample], received := true));
    assert SystemStep(sys, a) == next;
    FlushLoses(next, sample);
    LosesFirst(sys, a, next, [Receive(Timeout, true)], sample);
  }

  /** What follows the pass: recorded, received, flushed. */
  function FrameEnd(sample: HistorySample): seq<Action> {
    [Record(sample)] + ([Receive(Message(0), true)] + [Receive(Timeout, true)])
  }

  lemma RecordLoses(sys: System, sample: HistorySample)
    requires Passed(sys, NewWriter, sample) && sys.stamped == Some(sample.ts)
    ensures Loses(sys, FrameEnd(sample), sample)
  {
    var next := SystemStep(sys, Record(sample));
    assert next.writer == NewWriter.(channel := [Sample(sample)], received := sys.writer.received);
    ReceiveLoses(next, sample);
    LosesFirst(sys, Record(sample), next, [Receive(Message(0), true)] + [Receive(Timeout, true)], sample);
  }

  const FIRST_PASS := Maintenance(BUCKET_10S_MS, ROLLUP_SLOTS, RETENTION_SLOTS)

  lemma PassRuns(sys: System)
    requires sys == NewSystem.(stamped := Some(0), writer := NewWriter.(received := true))
    ensures Proper(sys, Maintain(FIRST_PASS))
    ensures SystemStep(sys, Maintain(FIRST_PASS)) == Maintained(sys, FIRST_PASS).(writer := NewWriter)
  {
    FirstPass(FIRST_PASS);
  }

  /** A sample is stamped, a pass closes its bucket, and only then is it recorded, received and flushed. */
  function SlowFrame(sample: HistorySample): seq<Action> {
    [Stamp(sample.ts)] + ([Receive(Timeout, true)] + ([Maintain(FIRST_PASS)] + FrameEnd(sample)))
  }

  /** The buffer and the channel alone would not do: here nothing was in either at the only pass, no statement
      failed, and yet the sample handed over is lost to the rollups. */
  lemma StampedSampleCanBeMissed(row: Row)
    ensures var sample := HistorySample(0, row);
            && ProperRun(NewSystem, SlowFrame(sample))
            && var sys := SystemRun(NewSystem, SlowFrame(sample));
               && sys.handed == [sample] && sys.failed == {} && 0 !in sys.trace.onTime
               && |sys.log| == 1 && sys.log[0].count == 0
  {
    var sample := HistorySample(0, row);
    var sys1 := NewSystem.(stamped := Some(0));
    var sys2 := sys1.(writer := NewWriter.(received := true));
    var sys3 := Maintained(sys2, FIRST_PASS).(writer := NewWriter);
    FirstPass(FIRST_PASS);
    RecordLoses(sys3, sample);
    PassRuns(sys2);
    ActionFirst(sys2, Maintain(FIRST_PASS), FrameEnd(sample));
    EarlyActions(sys1, sys2, [Maintain(FIRST_PASS)] + FrameEnd(sample));
  }

  lemma EarlyActions(sys1: System, sys2: System, rest: seq<Action>)
    requires sys1 == NewSystem.(stamped := Some(0)) && sys2 == sys1.(writer := NewWriter.(received := true))
    requires ProperRun(sys2, rest)
    ensures var actions := [Stamp(0)] + ([Receive(Timeout, true)] + rest);
            ProperRun(NewSystem, actions) && SystemRun(NewSystem, actions) == SystemRun(sys2, rest)
  {
    assert SystemStep(sys1, Receive(Timeout, true)) == sys2;
    ActionFirst(sys1, Receive(Timeout, true), rest);
    assert SystemStep(NewSystem, Stamp(0)) == sys1;
    ActionFirst(NewSystem, Stamp(0), [Receive(Timeout, true)] + rest);
  }
}
