/** Which readings a rate is computed from, and what hiding and showing the window does, in every interleaving. */
module ResumeRates {
  import opened Options
  import opened Resume

  // ----- the readings behind the rates

  /** What a loop did to its baseline: a reading taken, or the baseline dropped. Failed reads leave no trace. */
  datatype Entry = Took(reading: Reading) | Dropped

  /** A rate for every two readings taken one right after the other. */
  function Pairs(log: seq<Entry>): seq<Percent> {
    if |log| < 2 then []
    else
      var n := |log|;
      Pairs(log[..n - 1])
        + if log[n - 2].Took? && log[n - 1].Took? then [Percent(log[n - 2].reading, log[n - 1].reading)] else []
  }

  function LastTaken(log: seq<Entry>): Option<Reading> {
    if log != [] && log[|log| - 1].Took? then Some(log[|log| - 1].reading) else None
  }

  function TookAt(read: Option<CpuTimes>, at: nat): seq<Entry> {
    match read
    case None => []
    case Some(times) => [Took(Reading(times, at))]
  }

  lemma PairsAppend(log: seq<Entry>, e: Entry)
    ensures Pairs(log + [e])
              == Pairs(log) + if LastTaken(log).Some? && e.Took? then [Percent(LastTaken(log).value, e.reading)] else []
  {
    assert (log + [e])[..|log|] == log;
  }

  function HotEntries(s: State, step: Step): seq<Entry> {
    match step
    case HotReset => [Dropped]
    case HotCollect(read) => TookAt(read, s.now)
    case _ => []
  }

  function HotLog(s: State, steps: seq<Step>): seq<Entry>
    decreases |steps|
  {
    if steps == [] then [] else HotEntries(s, steps[0]) + HotLog(Next(s, steps[0]), steps[1..])
  }

  function HotPercents(rates: seq<Reported>): seq<Percent> {
    if rates == [] then [] else HotPercents(rates[..|rates| - 1]) + [rates[|rates| - 1].percent]
  }

  lemma HotPercentsAppend(rates: seq<Reported>, r: Reported)
    ensures HotPercents(rates + [r]) == HotPercents(rates) + [r.percent]
  {
    assert (rates + [r])[..|rates|] == rates;
  }

  lemma HotCollects(s: State, read: Option<CpuTimes>)
    requires Enabled(s, HotCollect(read))
    ensures var s' := Next(s, HotCollect(read));
            && s'.prevCpu == BaselineAfter(s.prevCpu, ReadAt(read, s.now))
            && s'.rates == s.rates
                 + if s.prevCpu.Some? && read.Some? then
                     [Reported(s.iterationStart, s.swapAt, Percent(s.prevCpu.value, Reading(read.value, s.now)))]
                   else []
  {
  }

  lemma HotOtherwise(s: State, step: Step)
    requires Enabled(s, step) && !step.HotCollect?
    ensures Next(s, step).rates == s.rates && Next(s, step).prevCpu == if step.HotReset? then None else s.prevCpu
  {
  }

  lemma HotStepPairs(s: State, step: Step, log: seq<Entry>)
    requires Enabled(s, step) && s.prevCpu == LastTaken(log) && HotPercents(s.rates) == Pairs(log)
    ensures var log' := log + HotEntries(s, step);
            Next(s, step).prevCpu == LastTaken(log') && HotPercents(Next(s, step).rates) == Pairs(log')
  {
    var entries := HotEntries(s, step);
    if entries == [] {
      assert log + entries == log;
    } else {
      PairsAppend(log, entries[0]);
    }
    if step.HotCollect? {
      HotCollects(s, step.read);
      if s.prevCpu.Some? && step.read.Some? {
        var percent := Percent(s.prevCpu.value, Reading(step.read.value, s.now));
        HotPercentsAppend(s.rates, Reported(s.iterationStart, s.swapAt, percent));
      } else {
        assert s.rates + [] == s.rates;
      }
    } else {
      HotOtherwise(s, step);
    }
  }

  lemma Shift(log: seq<Entry>, first: seq<Entry>, rest: seq<Entry>)
    ensures log + (first + rest) == log + first + rest
  {
  }

  lemma {:induction false} HotRunPairs(s: State, steps: seq<Step>, log: seq<Entry>, all: seq<Entry>)
    requires Possible(s, steps) && s.prevCpu == LastTaken(log) && HotPercents(s.rates) == Pairs(log)
    requires all == log + HotLog(s, steps)
    ensures HotPercents(Run(s, steps).rates) == Pairs(all)
    decreases |steps|
  {
    if steps == [] {
      assert all == log;
    } else {
      var next, entries := Next(s, steps[0]), HotEntries(s, steps[0]);
      HotStepPairs(s, steps[0], log);
      Shift(log, entries, HotLog(next, steps[1..]));
      HotRunPairs(next, steps[1..], log + entries, all);
    }
  }

  /** In every interleaving the hot loop reports exactly one rate for every two successful reads that follow each other
      with no reset in between, from those two readings and in that order. */
  lemma HotRatesArePairs(probe: Option<CpuTimes>, steps: seq<Step>)
    requires Possible(Start(probe), steps)
    ensures HotPercents(Run(Start(probe), steps).rates) == Pairs(TookAt(probe, 0) + HotLog(Start(probe), steps))
  {
    HotRunPairs(Start(probe), steps, TookAt(probe, 0), TookAt(probe, 0) + HotLog(Start(probe), steps));
  }

  function WarmEntries(s: State, step: Step, w: WorkerId): seq<Entry> {
    match step
    case WorkerReset(v) => if v == w then [Dropped] else []
    case WorkerCollect(v, read) => if v == w then TookAt(read, s.now) else []
    case _ => []
  }

  function WarmLog(s: State, steps: seq<Step>, w: WorkerId): seq<Entry>
    decreases |steps|
  {
    if steps == [] then [] else WarmEntries(s, steps[0], w) + WarmLog(Next(s, steps[0]), steps[1..], w)
  }

  function WarmPercents(rates: seq<WarmRate>, w: WorkerId): seq<Percent> {
    if rates == [] then []
    else
      var last := rates[|rates| - 1];
      WarmPercents(rates[..|rates| - 1], w) + if last.worker == w then [last.percent] else []
  }

  lemma WarmPercentsAppend(rates: seq<WarmRate>, r: WarmRate, w: WorkerId)
    ensures WarmPercents(rates + [r], w) == WarmPercents(rates, w) + if r.worker == w then [r.percent] else []
  {
    assert (rates + [r])[..|rates|] == rates;
  }

  lemma WorkerCollects(s: State, v: WorkerId, read: Option<CpuTimes>, w: WorkerId)
    requires Enabled(s, WorkerCollect(v, read))
    ensures var s' := Next(s, WorkerCollect(v, read));
            && s'.Of(w).prev == (if v == w then BaselineAfter(s.Of(w).prev, ReadAt(read, s.now)) else s.Of(w).prev)
            && s'.warmRates == s.warmRates
                 + if s.Of(v).prev.Some? && read.Some? then
                     [WarmRate(v, s.Of(v).iterationStart, s.Of(v).resetAt,
                               Percent(s.Of(v).prev.value, Reading(read.value, s.now)))]
                   else []
  {
  }

  lemma WorkerOtherwise(s: State, step: Step, w: WorkerId)
    requires Enabled(s, step) && !step.WorkerCollect?
    ensures Next(s, step).warmRates == s.warmRates
    ensures Next(s, step).Of(w).prev == if step == WorkerReset(w) then None else s.Of(w).prev
  {
  }

  lemma WarmStepPairs(s: State, step: Step, w: WorkerId, log: seq<Entry>)
    requires Enabled(s, step) && s.Of(w).prev == LastTaken(log) && WarmPercents(s.warmRates, w) == Pairs(log)
    ensures var log' := log + WarmEntries(s, step, w);
            Next(s, step).Of(w).prev == LastTaken(log') && WarmPercents(Next(s, step).warmRates, w) == Pairs(log')
  {
    var entries := WarmEntries(s, step, w);
    if entries == [] {
      assert log + entries == log;
    } else {
      PairsAppend(log, entries[0]);
    }
    if step.WorkerCollect? {
      var v, read := step.worker, step.read;
      WorkerCollects(s, v, read, w);
      if s.Of(v).prev.Some? && read.Some? {
        var percent := Percent(s.Of(v).prev.value, Reading(read.value, s.now));
        WarmPercentsAppend(s.warmRates, WarmRate(v, s.Of(v).iterationStart, s.Of(v).resetAt, percent), w);
      } else {
        assert s.warmRates + [] == s.warmRates;
      }
    } else {
      WorkerOtherwise(s, step, w);
    }
  }

  lemma {:induction false} WarmRunPairs(s: State, steps: seq<Step>, w: WorkerId, log: seq<Entry>, all: seq<Entry>)
    requires Possible(s, steps) && s.Of(w).prev == LastTaken(log) && WarmPercents(s.warmRates, w) == Pairs(log)
    requires all == log + WarmLog(s, steps, w)
    ensures WarmPercents(Run(s, steps).warmRates, w) == Pairs(all)
    decreases |steps|
  {
    if steps == [] {
      assert all == log;
    } else {
      var next, entries := Next(s, steps[0]), WarmEntries(s, steps[0], w);
      WarmStepPairs(s, steps[0], w, log);
      Shift(log, entries, WarmLog(next, steps[1..], w));
      WarmRunPairs(next, steps[1..], w, log + entries, all);
    }
  }

  /** And so does each warm worker. */
  lemma WarmRatesArePairs(probe: Option<CpuTimes>, steps: seq<Step>, w: WorkerId)
    requires Possible(Start(probe), steps)
    ensures WarmPercents(Run(Start(probe), steps).warmRates, w)
              == Pairs(TookAt(probe, 0) + WarmLog(Start(probe), steps, w))
  {
    WarmRunPairs(Start(probe), steps, w, TookAt(probe, 0), TookAt(probe, 0) + WarmLog(Start(probe), steps, w));
  }

  // ----- showing the window

  ghost predicate HotStoredSince(s: State, at: nat) {
    exists m :: 0 <= m < |s.hotStores| && s.hotStores[m] >= at
  }

  ghost predicate WarmStoredSince(s: State, at: nat) {
    exists m :: 0 <= m < |s.warmStores| && s.warmStores[m] >= at
  }

  /** The call that showed the window at this instant has stored the flags it had time for. */
  ghost predicate Storing(s: State, thread: nat, at: nat) {
    && at <= s.now
    && (PcOf(s, thread) == StoresHot || HotStoredSince(s, at))
    && (PcOf(s, thread) == Returned ==> WarmStoredSince(s, at))
  }

  lemma StoresStay(s: State, step: Step, at: nat)
    requires Enabled(s, step)
    ensures HotStoredSince(s, at) ==> HotStoredSince(Next(s, step), at)
    ensures WarmStoredSince(s, at) ==> WarmStoredSince(Next(s, step), at)
  {
    var s' := Next(s, step);
    assert s.hotStores <= s'.hotStores && s.warmStores <= s'.warmStores;
    if HotStoredSince(s, at) {
      var m :| 0 <= m < |s.hotStores| && s.hotStores[m] >= at;
      assert s'.hotStores[m] >= at;
    }
    if WarmStoredSince(s, at) {
      var m :| 0 <= m < |s.warmStores| && s.warmStores[m] >= at;
      assert s'.warmStores[m] >= at;
    }
  }

  lemma OthersLeaveUi(s: State, step: Step, thread: nat)
    requires Enabled(s, step) && PcOf(s, thread) != Returned
    requires step != UiStoreHot(thread) && step != UiStoreWarm(thread)
    ensures PcOf(Next(s, step), thread) == PcOf(s, thread) && Next(s, step).now == s.now + 1
  {
  }

  lemma StepKeepsStoring(s: State, step: Step, thread: nat, at: nat)
    requires Enabled(s, step) && Storing(s, thread, at) && PcOf(s, thread) != Returned
    ensures Storing(Next(s, step), thread, at)
  {
    var s' := Next(s, step);
    StoresStay(s, step, at);
    if step == UiStoreHot(thread) {
      assert s'.hotStores[|s.hotStores|] == s.now >= at;
    } else if step == UiStoreWarm(thread) {
      assert s'.warmStores[|s.warmStores|] == s.now >= at;
    } else {
      OthersLeaveUi(s, step, thread);
    }
  }

  /** Until its call returns, the thread that showed the window takes no other step of its own. */
  lemma {:induction false} ShownIsStored(s: State, steps: seq<Step>, thread: nat, at: nat)
    requires Possible(s, steps) && Storing(s, thread, at)
    ensures var end := Run(s, steps);
            PcOf(end, thread) == Returned ==> HotStoredSince(end, at) && WarmStoredSince(end, at)
    decreases |steps|
  {
    if PcOf(s, thread) == Returned {
      BothStay(s, steps, at);
    } else if steps != [] {
      StepKeepsStoring(s, steps[0], thread, at);
      ShownIsStored(Next(s, steps[0]), steps[1..], thread, at);
    }
  }

  lemma {:induction false} BothStay(s: State, steps: seq<Step>, at: nat)
    requires Possible(s, steps) && HotStoredSince(s, at) && WarmStoredSince(s, at)
    ensures HotStoredSince(Run(s, steps), at) && WarmStoredSince(Run(s, steps), at)
    decreases |steps|
  {
    if steps != [] {
      StoresStay(s, steps[0], at);
      BothStay(Next(s, steps[0]), steps[1..], at);
    }
  }

  /** Every change from hidden to visible stores both flags before its call returns, whatever happens in between. */
  lemma EdgeStoresBothFlags(s: State, thread: nat, steps: seq<Step>)
    requires Enabled(s, UiSwap(thread, true)) && !s.visible && Possible(Next(s, UiSwap(thread, true)), steps)
    ensures var end := Run(Next(s, UiSwap(thread, true)), steps);
            && PcOf(Next(s, UiSwap(thread, true)), thread) != Returned
            && (PcOf(end, thread) == Returned ==> HotStoredSince(end, s.now) && WarmStoredSince(end, s.now))
  {
    ShownIsStored(Next(s, UiSwap(thread, true)), steps, thread, s.now);
  }

  /** A call that does not change hidden to visible stores neither. */
  lemma OtherCallsStoreNothing(s: State, thread: nat, visible: bool)
    requires Enabled(s, UiSwap(thread, visible)) && (s.visible || !visible)
    ensures PcOf(Next(s, UiSwap(thread, visible)), thread) == Returned
    ensures var s' := Next(s, UiSwap(thread, visible));
            s'.hotStores == s.hotStores && s'.warmStores == s.warmStores
            && s'.hotResume == s.hotResume && s'.warmResume == s.warmResume
  {
  }

  // ----- hiding it

  ghost predicate NobodyShows(steps: seq<Step>) {
    forall i | 0 <= i < |steps| :: steps[i].UiSwap? ==> !steps[i].visible
  }

  /** While the window stays hidden, loops that are between two iterations read nothing and compute nothing. */
  lemma {:induction false} HiddenLoopsRest(s: State, steps: seq<Step>)
    requires Possible(s, steps) && NobodyShows(steps) && !s.visible
    requires s.hot == Top && s.workerA.pc == Top && s.workerB.pc == Top
    ensures var end := Run(s, steps);
            && !end.visible && end.rates == s.rates && end.prevCpu == s.prevCpu && end.warmRates == s.warmRates
            && end.workerA == s.workerA && end.workerB == s.workerB && end.hot == Top
    decreases |steps|
  {
    if steps != [] {
      var step := steps[0];
      assert step.UiSwap? ==> !step.visible;
      HiddenStepRests(s, step);
      HiddenLoopsRest(Next(s, step), steps[1..]);
    }
  }

  lemma HiddenStepRests(s: State, step: Step)
    requires Enabled(s, step) && !s.visible && (step.UiSwap? ==> !step.visible)
    requires s.hot == Top && s.workerA.pc == Top && s.workerB.pc == Top
    ensures var next := Next(s, step);
            && !next.visible && next.rates == s.rates && next.prevCpu == s.prevCpu && next.warmRates == s.warmRates
            && next.workerA == s.workerA && next.workerB == s.workerB && next.hot == Top
  {
  }
}
