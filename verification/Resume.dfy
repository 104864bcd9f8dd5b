/** The resume protocol: visibility changes in the UI threads against the hot loop and the two warm
    workers. Every step is one atomic access, so a sequence of steps is an interleaving. */
module Resume {
  import opened Options

  // ----- the CPU collector whose baseline the protocol protects

  datatype CpuTimes = CpuTimes(idle: nat, total: nat)

  /** A reading and the instant it was taken. */
  datatype Reading = Reading(times: CpuTimes, at: nat)

  datatype Percent = Percent(prev: Reading, curr: Reading)

  /** What one `collect` reports: a failed read, no rate yet, or a rate between two readings. */
  datatype Collected = Failed | NoRate | Rate(between: Percent)

  function CollectOutcome(prev: Option<Reading>, curr: Option<Reading>): Collected {
    match curr
    case None => Failed
    case Some(c) => if prev.None? then NoRate else Rate(Percent(prev.value, c))
  }

  /** A failed read keeps the baseline. */
  function BaselineAfter(prev: Option<Reading>, curr: Option<Reading>): Option<Reading> {
    if curr.None? then prev else curr
  }

  class CpuCollector {
    var prevCpu: Option<Reading>

    constructor ()
      ensures prevCpu == None
    {
      prevCpu := None;
    }

    method Probe(read: Option<Reading>) returns (ok: bool)
      modifies this
      ensures ok == read.Some? && prevCpu == BaselineAfter(old(prevCpu), read)
    {
      if read.Some? {
        prevCpu := read;
      }
      ok := read.Some?;
    }

    method Collect(read: Option<Reading>) returns (outcome: Collected)
      modifies this
      ensures outcome == CollectOutcome(old(prevCpu), read) && prevCpu == BaselineAfter(old(prevCpu), read)
    {
      match (prevCpu, read)
      case (Some(prev), Some(curr)) =>
        prevCpu := Some(curr);
        outcome := Rate(Percent(prev, curr));
      case (None, Some(curr)) =>
        prevCpu := Some(curr);
        outcome := NoRate;
      case (_, None) =>
        outcome := Failed;
    }

    method ResetBaseline()
      modifies this
      ensures prevCpu == None
    {
      prevCpu := None;
    }
  }

  // ----- the shared flags and the threads

  /** Where a call of `set_visible` is: done, or about to store one of the resume flags. */
  datatype UiPc = Returned | StoresHot | StoresWarm

  /** Where the hot loop, or a worker, is in its iteration. */
  datatype LoopPc = Top | Seen | Resetting | Collecting

  /** The two warm workers share one flag. */
  datatype WorkerId = WorkerA | WorkerB

  /** A warm worker, its baseline, when its iteration began, how many flags it consumed and when it last reset. */
  datatype Worker =
    Worker(pc: LoopPc, prev: Option<Reading>, iterationStart: nat, consumed: nat, resetAt: Option<nat>)

  /** A rate of a warm worker, with the instants at which its iteration began and its worker last reset. */
  datatype WarmRate = WarmRate(worker: WorkerId, begun: nat, resetAt: Option<nat>, percent: Percent)

  /** A percentage with the instants at which its iteration began and at which it swapped the flag. */
  datatype Reported = Reported(begun: nat, swapped: nat, percent: Percent)

  datatype State = State(
    now: nat,
    visible: bool,
    hotResume: bool,
    warmResume: bool,
    ui: map<nat, UiPc>,
    hot: LoopPc,
    iterationStart: nat,
    swapAt: nat,
    prevCpu: Option<Reading>,
    rates: seq<Reported>,
    hotStores: seq<nat>,
    hotPending: nat,
    hotConsumed: nat,
    warmPending: nat,
    warmStores: seq<nat>,
    workerA: Worker,
    workerB: Worker,
    warmRates: seq<WarmRate>)
  {
    function Of(w: WorkerId): Worker {
      if w == WorkerA then workerA else workerB
    }

    function With(w: WorkerId, x: Worker): State {
      if w == WorkerA then this.(workerA := x) else this.(workerB := x)
    }
  }

  function ReadAt(times: Option<CpuTimes>, at: nat): Option<Reading> {
    match times
    case None => None
    case Some(t) => Some(Reading(t, at))
  }

  /** Before any thread moved. Each loop's probe may have taken a first baseline already. */
  function Start(probe: Option<CpuTimes>): State {
    var worker := Worker(Top, ReadAt(probe, 0), 0, 0, None);
    State(1, false, false, false, map[], Top, 0, 0, ReadAt(probe, 0), [], [], 0, 0, 0, [], worker, worker, [])
  }

  datatype Step =
    | UiSwap(thread: nat, visible: bool)
    | UiStoreHot(thread: nat)
    | UiStoreWarm(thread: nat)
    | HotBegin
    | HotSwap
    | HotReset
    | HotCollect(read: Option<CpuTimes>)
    | WorkerBegin(worker: WorkerId)
    | WorkerSwap(worker: WorkerId)
    | WorkerReset(worker: WorkerId)
    | WorkerCollect(worker: WorkerId, read: Option<CpuTimes>)

  function PcOf(s: State, thread: nat): UiPc {
    if thread in s.ui then s.ui[thread] else Returned
  }

  predicate Enabled(s: State, step: Step) {
    match step
    case UiSwap(t, _) => PcOf(s, t) == Returned
    case UiStoreHot(t) => PcOf(s, t) == StoresHot
    case UiStoreWarm(t) => PcOf(s, t) == StoresWarm
    case HotBegin => s.hot == Top
    case HotSwap => s.hot == Seen
    case HotReset => s.hot == Resetting
    case HotCollect(_) => s.hot == Collecting
    case WorkerBegin(w) => s.Of(w).pc == Top
    case WorkerSwap(w) => s.Of(w).pc == Seen
    case WorkerReset(w) => s.Of(w).pc == Resetting
    case WorkerCollect(w, _) => s.Of(w).pc == Collecting
  }

  /** Every step takes one instant. `hotPending` and `warmPending` count the stores that found their
      flag clear and so made a resume pending. */
  function Next(s: State, step: Step): State {
    var t := s.(now := s.now + 1);
    match step
    case UiSwap(thread, visible) =>
      t.(visible := visible, ui := s.ui[thread := if visible && !s.visible then StoresHot else Returned])
    case UiStoreHot(thread) =>
      t.(hotResume := true, ui := s.ui[thread := StoresWarm], hotStores := s.hotStores + [s.now],
         hotPending := s.hotPending + if s.hotResume then 0 else 1)
    case UiStoreWarm(thread) =>
      t.(warmResume := true, ui := s.ui[thread := Returned], warmStores := s.warmStores + [s.now],
         warmPending := s.warmPending + if s.warmResume then 0 else 1)
    case HotBegin =>
      if s.visible then t.(hot := Seen, iterationStart := s.now) else t
    case HotSwap =>
      if s.hotResume then
        t.(hotResume := false, hot := Resetting, swapAt := s.now, hotConsumed := s.hotConsumed + 1)
      else t.(hot := Collecting, swapAt := s.now)
    case HotReset => t.(prevCpu := None, hot := Collecting)
    case HotCollect(read) =>
      var curr := ReadAt(read, s.now);
      var outcome := CollectOutcome(s.prevCpu, curr);
      t.(prevCpu := BaselineAfter(s.prevCpu, curr), hot := Top,
         rates := if outcome.Rate? then s.rates + [Reported(s.iterationStart, s.swapAt, outcome.between)] else s.rates)
    case WorkerBegin(w) =>
      if s.visible then t.With(w, s.Of(w).(pc := Seen, iterationStart := s.now)) else t
    case WorkerSwap(w) =>
      if s.warmResume then
        t.(warmResume := false).With(w, s.Of(w).(pc := Resetting, consumed := s.Of(w).consumed + 1))
      else t.With(w, s.Of(w).(pc := Collecting))
    case WorkerReset(w) => t.With(w, s.Of(w).(pc := Collecting, prev := None, resetAt := Some(s.now)))
    case WorkerCollect(w, read) =>
      var worker, curr := s.Of(w), ReadAt(read, s.now);
      var outcome := CollectOutcome(worker.prev, curr);
      var rates := if outcome.Rate?
                   then s.warmRates + [WarmRate(w, worker.iterationStart, worker.resetAt, outcome.between)]
                   else s.warmRates;
      t.(warmRates := rates).With(w, worker.(pc := Top, prev := BaselineAfter(worker.prev, curr)))
  }

  ghost predicate Possible(s: State, steps: seq<Step>)
    decreases |steps|
  {
    steps != [] ==> Enabled(s, steps[0]) && Possible(Next(s, steps[0]), steps[1..])
  }

  function Run(s: State, steps: seq<Step>): State
    decreases |steps|
  {
    if steps == [] then s else Run(Next(s, steps[0]), steps[1..])
  }

  // ----- the protocol keeps stale baselines out

  /** A store at instant `since` still protects the baseline: its flag is pending, or was consumed by an
      iteration about to reset, or there is no older baseline left. */
  ghost predicate Protected(s: State, since: nat) {
    || s.hotResume
    || s.hot == Resetting
    || s.prevCpu.None?
    || s.prevCpu.value.at > since
  }

  predicate PastSwap(s: State) {
    s.hot == Resetting || s.hot == Collecting
  }

  /** An iteration about to collect that swapped the flag after the store starts from a fresh baseline. */
  ghost predicate FreshPast(s: State, since: nat) {
    s.hot == Collecting && s.swapAt > since ==> s.prevCpu.None? || s.prevCpu.value.at > since
  }

  ghost predicate RatesFresh(s: State, since: nat) {
    forall k | 0 <= k < |s.rates| :: s.rates[k].swapped > since ==> s.rates[k].percent.prev.at > since
  }

  /** The order of instants within one iteration. */
  ghost predicate Ordered(r: Reported) {
    r.begun < r.swapped < r.percent.curr.at && r.percent.prev.at < r.swapped
  }

  ghost predicate Safe(s: State) {
    && (forall k | 0 <= k < |s.hotStores| :: s.hotStores[k] < s.now)
    && (s.hot != Top ==> s.iterationStart < s.now)
    && (PastSwap(s) ==> s.iterationStart < s.swapAt < s.now && (s.prevCpu.Some? ==> s.prevCpu.value.at < s.swapAt))
    && (s.prevCpu.Some? ==> s.prevCpu.value.at < s.now)
    && (forall k | 0 <= k < |s.rates| :: Ordered(s.rates[k]) && s.rates[k].percent.curr.at < s.now)
    && (forall since | since in s.hotStores :: Protected(s, since) && FreshPast(s, since) && RatesFresh(s, since))
  }

  predicate IsUi(step: Step) {
    step.UiSwap? || step.UiStoreHot? || step.UiStoreWarm?
  }

  predicate IsHot(step: Step) {
    step.HotBegin? || step.HotSwap? || step.HotReset? || step.HotCollect?
  }

  /** The hot loop and what it shares are as before. */
  ghost predicate SameHot(s: State, s': State) {
    && s'.now == s.now + 1 && s'.hot == s.hot && s'.hotResume == s.hotResume && s'.hotStores == s.hotStores
    && s'.iterationStart == s.iterationStart && s'.swapAt == s.swapAt && s'.prevCpu == s.prevCpu && s'.rates == s.rates
  }

  lemma OthersLeaveHot(s: State, step: Step)
    requires Enabled(s, step) && !IsHot(step) && !step.UiStoreHot?
    ensures SameHot(s, Next(s, step))
  {
  }

  lemma SameHotSafe(s: State, s': State)
    requires Safe(s) && SameHot(s, s')
    ensures Safe(s')
  {
    forall since | since in s'.hotStores
      ensures Protected(s', since) && FreshPast(s', since) && RatesFresh(s', since)
    {
      assert Protected(s, since) && FreshPast(s, since) && RatesFresh(s, since);
    }
  }

  lemma StoreKeepsSafe(s: State, thread: nat)
    requires Safe(s) && Enabled(s, UiStoreHot(thread))
    ensures Safe(Next(s, UiStoreHot(thread)))
  {
    var s' := Next(s, UiStoreHot(thread));
    forall since | since in s'.hotStores
      ensures Protected(s', since) && FreshPast(s', since) && RatesFresh(s', since)
    {
      if since in s.hotStores {
        assert Protected(s, since) && FreshPast(s, since) && RatesFresh(s, since);
      }
    }
  }

  lemma HotKeepsSafe(s: State, step: Step)
    requires Safe(s) && Enabled(s, step) && IsHot(step)
    ensures Safe(Next(s, step))
  {
    var s' := Next(s, step);
    forall since | since in s'.hotStores
      ensures Protected(s', since) && FreshPast(s', since) && RatesFresh(s', since)
    {
      assert Protected(s, since) && FreshPast(s, since) && RatesFresh(s, since);
    }
  }

  lemma StepKeepsSafe(s: State, step: Step)
    requires Safe(s) && Enabled(s, step)
    ensures Safe(Next(s, step))
  {
    if IsHot(step) {
      HotKeepsSafe(s, step);
    } else if step.UiStoreHot? {
      StoreKeepsSafe(s, step.thread);
    } else {
      OthersLeaveHot(s, step);
      SameHotSafe(s, Next(s, step));
    }
  }

  lemma {:induction false} RunKeepsSafe(s: State, steps: seq<Step>)
    requires Safe(s) && Possible(s, steps)
    ensures Safe(Run(s, steps))
    decreases |steps|
  {
    if steps != [] {
      StepKeepsSafe(s, steps[0]);
      RunKeepsSafe(Next(s, steps[0]), steps[1..]);
    }
  }

  /** The resume theorem: in every interleaving, a percentage is computed from two readings that were both
      taken after a resume flag was stored if and only if its iteration looked at the flag after that store. */
  lemma FreshIffSwappedAfterStore(probe: Option<CpuTimes>, steps: seq<Step>, k: nat, m: nat)
    requires Possible(Start(probe), steps)
    requires k < |Run(Start(probe), steps).rates| && m < |Run(Start(probe), steps).hotStores|
    ensures var end := Run(Start(probe), steps);
            var (rate, stored) := (end.rates[k], end.hotStores[m]);
            rate.percent.prev.at > stored && rate.percent.curr.at > stored <==> rate.swapped > stored
  {
    RunKeepsSafe(Start(probe), steps);
    var end := Run(Start(probe), steps);
    assert end.hotStores[m] in end.hotStores;
    assert Ordered(end.rates[k]);
  }

  /** In particular for every iteration that begins after the store. */
  lemma RatesNeverSpanAResume(probe: Option<CpuTimes>, steps: seq<Step>, k: nat, m: nat)
    requires Possible(Start(probe), steps)
    requires k < |Run(Start(probe), steps).rates| && m < |Run(Start(probe), steps).hotStores|
    ensures var end := Run(Start(probe), steps);
            var (rate, stored) := (end.rates[k], end.hotStores[m]);
            rate.begun > stored ==> rate.percent.prev.at > stored && rate.percent.curr.at > stored
  {
    RunKeepsSafe(Start(probe), steps);
    FreshIffSwappedAfterStore(probe, steps, k, m);
    assert Ordered(Run(Start(probe), steps).rates[k]);
  }

  /** A frame computed in the gap between the visibility swap and the store of the resume flag. */
  function EarlyIteration(later: CpuTimes): seq<Step> {
    [UiSwap(0, true), HotBegin, HotSwap, HotCollect(Some(later)), UiStoreHot(0)]
  }

  /** Such an iteration exists: `set_visible` publishes the new visibility before it stores the flag, and one
      that looks at the flag in that gap computes a percentage against the baseline taken before the window
      was shown. */
  lemma IterationBeforeStoreCanSpan(first: CpuTimes, later: CpuTimes)
    ensures var steps := EarlyIteration(later);
            && Possible(Start(Some(first)), steps)
            && Run(Start(Some(first)), steps).rates == [Reported(2, 3, Percent(Reading(first, 0), Reading(later, 4)))]
            && Run(Start(Some(first)), steps).hotStores == [5]
  {
    var s0 := Start(Some(first));
    var steps := EarlyIteration(later);
    var s1 := Next(s0, steps[0]);
    var s2 := Next(s1, steps[1]);
    var s3 := Next(s2, steps[2]);
    var s4 := Next(s3, steps[3]);
    var s5 := Next(s4, steps[4]);
    assert steps[4..] == [steps[4]] && steps[4..][1..] == [];
    assert Possible(s5, []) && Run(s5, []) == s5;
    assert Possible(s4, steps[4..]) && Run(s4, steps[4..]) == s5;
    assert steps[3..][1..] == steps[4..];
    assert Possible(s3, steps[3..]) && Run(s3, steps[3..]) == s5;
    assert steps[2..][1..] == steps[3..];
    assert Possible(s2, steps[2..]) && Run(s2, steps[2..]) == s5;
    assert steps[1..][1..] == steps[2..];
    assert Possible(s1, steps[1..]) && Run(s1, steps[1..]) == s5;
  }

  // ----- each pending flag is consumed once

  ghost predicate Counted(s: State) {
    && s.hotPending == s.hotConsumed + (if s.hotResume then 1 else 0)
    && s.warmPending == s.workerA.consumed + s.workerB.consumed + (if s.warmResume then 1 else 0)
  }

  lemma WorkerKeepsCounted(s: State, step: Step)
    requires Counted(s) && Enabled(s, step) && !IsUi(step) && !IsHot(step)
    ensures Counted(Next(s, step))
  {
    var s' := Next(s, step);
    assert s'.hotPending == s.hotPending && s'.hotConsumed == s.hotConsumed && s'.hotResume == s.hotResume;
    match step.worker
    case WorkerA => assert s'.workerB == s.workerB;
    case WorkerB => assert s'.workerA == s.workerA;
  }

  lemma StepKeepsCounted(s: State, step: Step)
    requires Counted(s) && Enabled(s, step)
    ensures Counted(Next(s, step))
  {
    if !IsUi(step) && !IsHot(step) {
      WorkerKeepsCounted(s, step);
    }
  }

  /** Every pending hot resume is consumed by exactly one iteration, and every pending warm resume by
      exactly one of the two workers: together they reset once per pending flag. */
  lemma {:induction false} FlagsAreConsumedOnce(s: State, steps: seq<Step>)
    requires Counted(s) && Possible(s, steps)
    ensures Counted(Run(s, steps))
    decreases |steps|
  {
    if steps != [] {
      StepKeepsCounted(s, steps[0]);
      FlagsAreConsumedOnce(Next(s, steps[0]), steps[1..]);
    }
  }

  /** One resume therefore never resets both workers' baselines, although both run collectors that
      keep one: as long as at most one warm flag was made pending, one of the workers never consumed one. */
  lemma OneResumeResetsOneWorker(probe: Option<CpuTimes>, steps: seq<Step>)
    requires Possible(Start(probe), steps) && Run(Start(probe), steps).warmPending <= 1
    ensures var end := Run(Start(probe), steps); end.workerA.consumed == 0 || end.workerB.consumed == 0
  {
    FlagsAreConsumedOnce(Start(probe), steps);
  }

  // ----- what that means for the rates of the warm workers

  ghost predicate AfterReset(worker: Worker, now: nat) {
    && (worker.prev.Some? ==> worker.prev.value.at < now)
    && (worker.resetAt.Some? ==> worker.resetAt.value < now)
    && (worker.resetAt.Some? && worker.prev.Some? ==> worker.prev.value.at > worker.resetAt.value)
  }

  ghost predicate WarmSafe(s: State) {
    && AfterReset(s.workerA, s.now) && AfterReset(s.workerB, s.now)
    && forall k | 0 <= k < |s.warmRates| :: WarmFresh(s.warmRates[k])
  }

  predicate WarmFresh(r: WarmRate) {
    r.percent.prev.at < r.percent.curr.at && (r.resetAt.Some? ==> r.resetAt.value < r.percent.prev.at)
  }

  lemma OthersLeaveWarm(s: State, step: Step)
    requires Enabled(s, step) && (IsUi(step) || IsHot(step))
    ensures var s' := Next(s, step);
            s'.workerA == s.workerA && s'.workerB == s.workerB && s'.warmRates == s.warmRates && s'.now == s.now + 1
  {
  }

  /** A worker's step moves that worker, and adds at most one rate. */
  lemma WorkerMoves(s: State, w: WorkerId, step: Step)
    requires Enabled(s, step) && !IsUi(step) && !IsHot(step) && step.worker == w && AfterReset(s.Of(w), s.now)
    ensures var s' := Next(s, step);
            && s'.now == s.now + 1 && AfterReset(s'.Of(w), s'.now)
            && (forall v | v != w :: s'.Of(v) == s.Of(v))
            && (s'.warmRates == s.warmRates
                || (s'.warmRates == s.warmRates + [s'.warmRates[|s.warmRates|]]
                    && WarmFresh(s'.warmRates[|s.warmRates|])))
  {
    match step
    case WorkerBegin(_) =>
    case WorkerSwap(_) =>
    case WorkerReset(_) =>
    case WorkerCollect(_, _) =>
  }

  lemma StepKeepsWarmSafe(s: State, step: Step)
    requires WarmSafe(s) && Enabled(s, step)
    ensures WarmSafe(Next(s, step))
  {
    if IsUi(step) || IsHot(step) {
      OthersLeaveWarm(s, step);
    } else {
      var w := step.worker;
      assert AfterReset(s.Of(w), s.now);
      WorkerMoves(s, w, step);
      var s' := Next(s, step);
      assert s'.workerA == s'.Of(WorkerA) && s'.workerB == s'.Of(WorkerB);
    }
  }

  lemma {:induction false} RunKeepsWarmSafe(s: State, steps: seq<Step>)
    requires WarmSafe(s) && Possible(s, steps)
    ensures WarmSafe(Run(s, steps))
    decreases |steps|
  {
    if steps != [] {
      StepKeepsWarmSafe(s, steps[0]);
      RunKeepsWarmSafe(Next(s, steps[0]), steps[1..]);
    }
  }

  /** A warm worker that has reset since a flag was stored computes its rates from two readings taken after that
      store. */
  lemma WarmRatesAreFreshAfterReset(probe: Option<CpuTimes>, steps: seq<Step>, k: nat, m: nat)
    requires Possible(Start(probe), steps)
    requires k < |Run(Start(probe), steps).warmRates| && m < |Run(Start(probe), steps).warmStores|
    ensures var end := Run(Start(probe), steps);
            var (rate, stored) := (end.warmRates[k], end.warmStores[m]);
            rate.resetAt.Some? && rate.resetAt.value > stored ==>
              rate.percent.prev.at > stored && rate.percent.curr.at > stored
  {
    RunKeepsWarmSafe(Start(probe), steps);
    assert WarmFresh(Run(Start(probe), steps).warmRates[k]);
  }

  /** One resume, seen by both workers after both of its stores. */
  function TwoWorkers(later: CpuTimes): seq<Step> {
    [UiSwap(0, true), UiStoreHot(0), UiStoreWarm(0), WorkerBegin(WorkerA), WorkerSwap(WorkerA)]
      + [WorkerBegin(WorkerB), WorkerSwap(WorkerB), WorkerCollect(WorkerB, Some(later))]
  }

  lemma StepFirst(s: State, step: Step, rest: seq<Step>)
    requires Enabled(s, step) && Possible(Next(s, step), rest)
    ensures Possible(s, [step] + rest) && Run(s, [step] + rest) == Run(Next(s, step), rest)
  {
    assert ([step] + rest)[1..] == rest;
  }

  lemma {:induction false} RunsJoin(s: State, a: seq<Step>, b: seq<Step>)
    requires Possible(s, a) && Possible(Run(s, a), b)
    ensures Possible(s, a + b) && Run(s, a + b) == Run(Run(s, a), b)
    decreases |a|
  {
    if a == [] {
      assert a + b == b;
    } else {
      RunsJoin(Next(s, a[0]), a[1..], b);
      assert (a + b)[1..] == a[1..] + b;
    }
  }

  lemma FirstWorkerTakesFlag(first: CpuTimes)
    ensures var s := Start(Some(first));
            var steps := TwoWorkers(first)[..5];
            && Possible(s, steps)
            && Run(s, steps) == s.(now := 6, visible := true, hotResume := true, ui := map[0 := Returned],
                                   hotStores := [2], hotPending := 1, warmPending := 1, warmStores := [3],
                                   workerA := Worker(Resetting, Some(Reading(first, 0)), 4, 1, None))
  {
    var s0, steps := Start(Some(first)), TwoWorkers(first)[..5];
    var s1 := Next(s0, UiSwap(0, true));
    var s2 := Next(s1, UiStoreHot(0));
    var s3 := Next(s2, UiStoreWarm(0));
    var s4 := Next(s3, WorkerBegin(WorkerA));
    var s5 := Next(s4, WorkerSwap(WorkerA));
    assert s5.ui == map[0 := Returned];
    StepFirst(s4, WorkerSwap(WorkerA), []);
    StepFirst(s3, WorkerBegin(WorkerA), [WorkerSwap(WorkerA)] + []);
    StepFirst(s2, UiStoreWarm(0), [WorkerBegin(WorkerA)] + ([WorkerSwap(WorkerA)] + []));
    StepFirst(s1, UiStoreHot(0), [UiStoreWarm(0)] + ([WorkerBegin(WorkerA)] + ([WorkerSwap(WorkerA)] + [])));
    var rest := [UiStoreHot(0)] + ([UiStoreWarm(0)] + ([WorkerBegin(WorkerA)] + ([WorkerSwap(WorkerA)] + [])));
    StepFirst(s0, UiSwap(0, true), rest);
    assert steps == [UiSwap(0, true)] + rest;
  }

  lemma SecondWorkerSpans(s: State, first: CpuTimes, later: CpuTimes)
    requires s.visible && !s.warmResume && s.now == 6 && s.warmRates == []
    requires s.workerB == Worker(Top, Some(Reading(first, 0)), 0, 0, None)
    ensures var steps := [WorkerBegin(WorkerB), WorkerSwap(WorkerB), WorkerCollect(WorkerB, Some(later))];
            && Possible(s, steps)
            && Run(s, steps).warmRates == [WarmRate(WorkerB, 6, None, Percent(Reading(first, 0), Reading(later, 8)))]
            && Run(s, steps).warmStores == s.warmStores
  {
    var s1 := Next(s, WorkerBegin(WorkerB));
    var s2 := Next(s1, WorkerSwap(WorkerB));
    StepFirst(s2, WorkerCollect(WorkerB, Some(later)), []);
    StepFirst(s1, WorkerSwap(WorkerB), [WorkerCollect(WorkerB, Some(later))] + []);
    StepFirst(s, WorkerBegin(WorkerB), [WorkerSwap(WorkerB)] + ([WorkerCollect(WorkerB, Some(later))] + []));
    assert [WorkerBegin(WorkerB)] + ([WorkerSwap(WorkerB)] + ([WorkerCollect(WorkerB, Some(later))] + []))
           == [WorkerBegin(WorkerB), WorkerSwap(WorkerB), WorkerCollect(WorkerB, Some(later))];
  }

  /** The other worker computes a rate that spans the hidden time, although its iteration began after the flag was
      stored: what holds of the hot loop does not hold of the warm workers. */
  lemma WarmRateCanSpan(first: CpuTimes, later: CpuTimes)
    ensures var steps := TwoWorkers(later);
            && Possible(Start(Some(first)), steps)
            && var end := Run(Start(Some(first)), steps);
               && end.warmStores == [3]
               && end.warmRates == [WarmRate(WorkerB, 6, None, Percent(Reading(first, 0), Reading(later, 8)))]
  {
    var s, steps := Start(Some(first)), TwoWorkers(later);
    FirstWorkerTakesFlag(first);
    assert TwoWorkers(first)[..5] == steps[..5];
    SecondWorkerSpans(Run(s, steps[..5]), first, later);
    assert steps[5..] == [WorkerBegin(WorkerB), WorkerSwap(WorkerB), WorkerCollect(WorkerB, Some(later))];
    RunsJoin(s, steps[..5], steps[5..]);
    assert steps == steps[..5] + steps[5..];
  }
}
