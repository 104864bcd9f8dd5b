/** What holds of the writer in every interleaving, and of the writer and the store together. */
module WriterTheorems {
  import opened Options
  import opened HistoryTypes
  import opened HistoryDb
  import opened HistoryView
  import opened HistoryWriters

  /** A maintenance pass as the specification remembers it: the accepted samples that were in the
      buffer or the channel, by index, the timestamp that was out with the producer, and the 10s watermark
      before and after. */
  datatype Closing = Closing(first: nat, count: nat, stamped: Option<int>, before: int, after: int)

  /** The writer and its database beside what the specification remembers. */
  datatype System = System(
    writer: Writer,
    trace: Trace,
    clock: int,
    stamped: Option<int>,
    attempts: nat,
    accepted: seq<HistorySample>,
    handed: seq<HistorySample>,
    stopAt: Option<nat>,
    late: set<nat>,
    failed: set<nat>,
    log: seq<Closing>)

  const NewSystem := System(NewWriter, Fresh, 0, None, 0, [], [], None, {}, {}, [])

  function SamplesOf(channel: seq<Msg>): seq<HistorySample> {
    if channel == [] then []
    else (if channel[0].Sample? then [channel[0].sample] else []) + SamplesOf(channel[1..])
  }

  function SamplesBeforeStop(channel: seq<Msg>): seq<HistorySample> {
    if channel == [] || channel[0].Stop? then [] else [channel[0].sample] + SamplesBeforeStop(channel[1..])
  }

  function Interval(lo: nat, n: nat): set<nat> {
    if n == 0 then {} else Interval(lo, n - 1) + {lo + n - 1}
  }

  /** The samples of a batch that are handed over late, by index. */
  function LateNow(sys: System, batch: seq<HistorySample>): set<nat> {
    set j | 0 <= j < |batch| && batch[j].ts < sys.trace.db.Mark(TenSec) :: |sys.handed| + j
  }

  function Flushed(sys: System, a: Action): System
    requires a.Receive? && Enabled(sys.writer, a)
  {
    var batch := Filled(sys.writer, a);
    if !Flushes(sys.writer, a) || batch == [] then sys
    else
      sys.(handed := sys.handed + batch, late := sys.late + LateNow(sys, batch),
           failed := if a.commits then sys.failed else sys.failed + Interval(|sys.handed|, |batch|),
           trace := if a.commits then Step(sys.trace, Insert(batch)) else sys.trace)
  }

  function AfterPass(trace: Trace, m: Maintenance): Trace {
    Step(Step(trace, Rollup(m.now, m.rollupSlots)), Retain(m.now, m.retainSlots))
  }

  /** The system after a pass that left this trace. */
  function Advanced(sys: System, trace: Trace, now: int): System {
    var waiting := |sys.writer.buffer| + |SamplesOf(sys.writer.channel)|;
    sys.(trace := trace, clock := Max(sys.clock, now),
         log := sys.log + [Closing(|sys.handed|, waiting, sys.stamped,
                                   sys.trace.db.Mark(TenSec), trace.db.Mark(TenSec))])
  }

  function Maintained(sys: System, m: Maintenance): System {
    Advanced(sys, AfterPass(sys.trace, m), m.now)
  }

  function SystemStep(sys: System, a: Action): System
    requires Enabled(sys.writer, a)
  {
    var w := WriterStep(sys.writer, a);
    match a
    case Stamp(ts) => sys.(stamped := Some(ts), clock := Max(sys.clock, ts))
    case Record(sample) =>
      sys.(writer := w, attempts := sys.attempts + 1, stamped := None,
           accepted := if w.dropped == sys.writer.dropped then sys.accepted + [sample] else sys.accepted)
    case SendStop =>
      sys.(writer := w, stopAt := if sys.stopAt.None? && sys.writer.running then Some(|sys.accepted|) else sys.stopAt)
    case Receive(_, _) => Flushed(sys, a).(writer := w)
    case Maintain(pass) => Maintained(sys, pass).(writer := w)
  }

  ghost predicate Possible(sys: System, actions: seq<Action>)
    decreases |actions|
  {
    actions != [] ==> Enabled(sys.writer, actions[0]) && Possible(SystemStep(sys, actions[0]), actions[1..])
  }

  function SystemRun(sys: System, actions: seq<Action>): System
    requires Possible(sys, actions)
    decreases |actions|
  {
    if actions == [] then sys else SystemRun(SystemStep(sys, actions[0]), actions[1..])
  }

  // ----- the writer and the store by themselves

  ghost predicate WriterPossible(w: Writer, actions: seq<Action>)
    decreases |actions|
  {
    actions != [] ==> Enabled(w, actions[0]) && WriterPossible(WriterStep(w, actions[0]), actions[1..])
  }

  /** What the methods of the writer make of the store's database. */
  function StoreAfter(w: Writer, db: Db, actions: seq<Action>): Db
    requires WriterPossible(w, actions)
    decreases |actions|
  {
    if actions == [] then db
    else StoreAfter(WriterStep(w, actions[0]), DbStep(w, db, actions[0]), actions[1..])
  }

  lemma TraceFollowsDb(sys: System, a: Action)
    requires Enabled(sys.writer, a)
    ensures SystemStep(sys, a).trace.db == DbStep(sys.writer, sys.trace.db, a)
    ensures SystemStep(sys, a).writer == WriterStep(sys.writer, a)
  {
  }

  /** The database the theorems speak of is the one the writer's methods leave in the store, after any run. */
  lemma {:induction false} RunFollowsStore(sys: System, actions: seq<Action>)
    requires Possible(sys, actions)
    ensures WriterPossible(sys.writer, actions)
    ensures SystemRun(sys, actions).trace.db == StoreAfter(sys.writer, sys.trace.db, actions)
    decreases |actions|
  {
    if actions != [] {
      TraceFollowsDb(sys, actions[0]);
      RunFollowsStore(SystemStep(sys, actions[0]), actions[1..]);
    }
  }

  // ----- conservation

  ghost predicate Conserved(sys: System) {
    && sys.attempts == sys.writer.dropped + |sys.accepted|
    && sys.accepted == sys.handed + sys.writer.buffer + SamplesOf(sys.writer.channel)
    && |sys.writer.channel| <= CHANNEL_CAPACITY
    && |sys.writer.buffer| < BATCH_SIZE
    && (sys.stopAt.Some? ==> sys.stopAt.value <= |sys.accepted|)
    && (sys.writer.running ==> (Stop in sys.writer.channel <==> sys.stopAt.Some?))
    && (sys.writer.running && sys.stopAt.Some? ==>
          sys.handed + sys.writer.buffer + SamplesBeforeStop(sys.writer.channel) == sys.accepted[..sys.stopAt.value])
    && (!sys.writer.running ==>
          && sys.writer.buffer == []
          && sys.handed == if sys.stopAt.Some? then sys.accepted[..sys.stopAt.value] else sys.accepted)
  }

  lemma {:induction false} SamplesOfAppend(channel: seq<Msg>, msg: Msg)
    ensures SamplesOf(channel + [msg]) == SamplesOf(channel) + if msg.Sample? then [msg.sample] else []
    ensures Stop in channel ==> SamplesBeforeStop(channel + [msg]) == SamplesBeforeStop(channel)
    ensures Stop !in channel ==>
              && SamplesBeforeStop(channel + [msg]) == SamplesOf(channel + [msg])
              && SamplesBeforeStop(channel) == SamplesOf(channel)
  {
    if channel != [] {
      SamplesOfAppend(channel[1..], msg);
      assert (channel + [msg])[1..] == channel[1..] + [msg];
    }
  }

  lemma RecordConserves(sys: System, sample: HistorySample)
    requires Conserved(sys)
    ensures Conserved(SystemStep(sys, Record(sample)))
  {
    if sys.writer.running && |sys.writer.channel| < CHANNEL_CAPACITY {
      var channel, waiting := sys.writer.channel, sys.handed + sys.writer.buffer;
      SamplesOfAppend(channel, Sample(sample));
      assert waiting + (SamplesOf(channel) + [sample]) == waiting + SamplesOf(channel) + [sample];
      assert Stop in channel + [Sample(sample)] <==> Stop in channel;
      if sys.stopAt.Some? {
        assert (sys.accepted + [sample])[..sys.stopAt.value] == sys.accepted[..sys.stopAt.value];
      }
    }
  }

  lemma StopConserves(sys: System)
    requires Conserved(sys) && Enabled(sys.writer, SendStop)
    ensures Conserved(SystemStep(sys, SendStop))
  {
    SamplesOfAppend(sys.writer.channel, Stop);
  }

  lemma ReceiveEffect(sys: System, a: Action)
    requires a.Receive? && Enabled(sys.writer, a)
    ensures var after := SystemStep(sys, a);
            && after.handed + after.writer.buffer == sys.handed + Filled(sys.writer, a)
            && after.accepted == sys.accepted && after.attempts == sys.attempts && after.stopAt == sys.stopAt
            && after.writer == WriterStep(sys.writer, a)
  {
    var flushed := Flushed(sys, a);
    assert SystemStep(sys, a).handed == flushed.handed;
    assert Flushes(sys.writer, a) ==> flushed.handed == sys.handed + Filled(sys.writer, a);
  }

  lemma ReceiveSplits(w: Writer, a: Action)
    requires a.Receive? && Enabled(w, a)
    ensures Filled(w, a) + SamplesOf(WriterStep(w, a).channel) == w.buffer + SamplesOf(w.channel)
    ensures !Ends(w, a) ==>
              Filled(w, a) + SamplesBeforeStop(WriterStep(w, a).channel) == w.buffer + SamplesBeforeStop(w.channel)
    ensures !Ends(w, a) ==> (Stop in WriterStep(w, a).channel <==> Stop in w.channel)
    ensures Ends(w, a) ==> SamplesBeforeStop(w.channel) == [] && Filled(w, a) == w.buffer
    ensures Ends(w, a) && w.channel == [] ==> SamplesOf(w.channel) == []
    ensures Ends(w, a) && w.channel != [] ==> Stop in w.channel
  {
    if w.channel != [] {
      assert w.channel == [w.channel[0]] + w.channel[1..];
    }
  }

  lemma Regroup<T>(a: seq<T>, b: seq<T>, c: seq<T>, a': seq<T>, b': seq<T>, c': seq<T>, f: seq<T>)
    requires a' + b' == a + f && f + c' == b + c
    ensures a' + b' + c' == a + b + c
  {
    assert a' + b' + c' == a + (f + c');
    assert a + b + c == a + (b + c);
  }

  lemma ConservedAcross(sys: System, after: System, filled: seq<HistorySample>, ends: bool)
    requires Conserved(sys) && sys.writer.running
    requires after.accepted == sys.accepted && after.attempts == sys.attempts && after.stopAt == sys.stopAt
    requires after.writer.dropped == sys.writer.dropped && after.writer.running == !ends
    requires |after.writer.channel| <= |sys.writer.channel| && |after.writer.buffer| < BATCH_SIZE
    requires after.handed + after.writer.buffer == sys.handed + filled
    requires filled + SamplesOf(after.writer.channel) == sys.writer.buffer + SamplesOf(sys.writer.channel)
    requires !ends ==>
               && filled + SamplesBeforeStop(after.writer.channel)
                    == sys.writer.buffer + SamplesBeforeStop(sys.writer.channel)
               && (Stop in after.writer.channel <==> Stop in sys.writer.channel)
    requires ends ==>
               && after.writer.buffer == [] && filled == sys.writer.buffer
               && SamplesBeforeStop(sys.writer.channel) == []
               && (Stop in sys.writer.channel || SamplesOf(sys.writer.channel) == [])
    ensures Conserved(after)
  {
    Regroup(sys.handed, sys.writer.buffer, SamplesOf(sys.writer.channel),
            after.handed, after.writer.buffer, SamplesOf(after.writer.channel), filled);
    if !ends {
      Regroup(sys.handed, sys.writer.buffer, SamplesBeforeStop(sys.writer.channel),
              after.handed, after.writer.buffer, SamplesBeforeStop(after.writer.channel), filled);
    }
  }

  lemma ReceiveConserves(sys: System, a: Action)
    requires Conserved(sys) && a.Receive? && Enabled(sys.writer, a)
    ensures Conserved(SystemStep(sys, a))
  {
    ReceiveEffect(sys, a);
    ReceiveSplits(sys.writer, a);
    ConservedAcross(sys, SystemStep(sys, a), Filled(sys.writer, a), Ends(sys.writer, a));
  }

  /** In every interleaving: each attempt is dropped, waiting or handed over, in order and once; the
      loop head always finds a short buffer; and once the loop has ended everything accepted before
      the stop request was handed over. */
  lemma {:induction false} WriterConserves(sys: System, actions: seq<Action>)
    requires Conserved(sys) && Possible(sys, actions)
    ensures Conserved(SystemRun(sys, actions))
    decreases |actions|
  {
    if actions != [] {
      match actions[0] {
        case Stamp(_) =>
        case Record(sample) => RecordConserves(sys, sample);
        case SendStop => StopConserves(sys);
        case Receive(_, _) => ReceiveConserves(sys, actions[0]);
        case Maintain(_) =>
      }
      WriterConserves(SystemStep(sys, actions[0]), actions[1..]);
    }
  }

  // ----- what is accepted

  function Records(samples: seq<HistorySample>): seq<Action> {
    if samples == [] then [] else [Record(samples[0])] + Records(samples[1..])
  }

  function Messages(samples: seq<HistorySample>): seq<Msg> {
    if samples == [] then [] else [Sample(samples[0])] + Messages(samples[1..])
  }

  /** How many of `n` samples fit behind what waits. */
  function Fitting(waiting: nat, n: nat): nat {
    if waiting + n <= CHANNEL_CAPACITY then n
    else if waiting <= CHANNEL_CAPACITY then CHANNEL_CAPACITY - waiting
    else 0
  }

  lemma {:induction false} AllDropped(sys: System, samples: seq<HistorySample>)
    requires sys.writer.running && |sys.writer.channel| >= CHANNEL_CAPACITY
    ensures Possible(sys, Records(samples))
    ensures SystemRun(sys, Records(samples)).writer == sys.writer.(dropped := sys.writer.dropped + |samples|)
    decreases |samples|
  {
    if samples != [] {
      AllDropped(SystemStep(sys, Record(samples[0])), samples[1..]);
      assert Records(samples)[1..] == Records(samples[1..]);
    }
  }

  /** A burst: with no receive in between, the samples that fit are queued in order behind what waits, exactly as many
      as there is room for, and the others are dropped. */
  lemma {:induction false} BurstIsQueued(sys: System, samples: seq<HistorySample>)
    requires sys.writer.running
    ensures Possible(sys, Records(samples))
    ensures var k := Fitting(|sys.writer.channel|, |samples|);
            SystemRun(sys, Records(samples)).writer
              == sys.writer.(channel := sys.writer.channel + Messages(samples[..k]),
                             dropped := sys.writer.dropped + |samples| - k)
    decreases |samples|
  {
    var channel := sys.writer.channel;
    var k := Fitting(|channel|, |samples|);
    if samples == [] || |channel| >= CHANNEL_CAPACITY {
      assert channel + Messages(samples[..k]) == channel;
      AllDroppedIfFull(sys, samples);
    } else {
      var next := SystemStep(sys, Record(samples[0]));
      assert next.writer == sys.writer.(channel := channel + [Sample(samples[0])]);
      assert Records(samples)[1..] == Records(samples[1..]);
      BurstIsQueued(next, samples[1..]);
      MessagesCons(channel, samples, k);
    }
  }

  lemma AllDroppedIfFull(sys: System, samples: seq<HistorySample>)
    requires sys.writer.running && (samples == [] || |sys.writer.channel| >= CHANNEL_CAPACITY)
    ensures Possible(sys, Records(samples))
    ensures SystemRun(sys, Records(samples)).writer == sys.writer.(dropped := sys.writer.dropped + |samples|)
  {
    if samples != [] {
      AllDropped(sys, samples);
    }
  }

  lemma MessagesCons(channel: seq<Msg>, samples: seq<HistorySample>, k: nat)
    requires 0 < k <= |samples|
    ensures channel + Messages(samples[..k]) == channel + [Sample(samples[0])] + Messages(samples[1..][..k - 1])
  {
    assert samples[..k][1..] == samples[1..][..k - 1];
  }

  /** The attempts of a run that find as many messages waiting as the channel holds, or the loop ended. */
  function Refused(sys: System, actions: seq<Action>): nat
    requires Possible(sys, actions)
    decreases |actions|
  {
    if actions == [] then 0
    else
      (if actions[0].Record? && (|sys.writer.channel| >= CHANNEL_CAPACITY || !sys.writer.running) then 1 else 0)
        + Refused(SystemStep(sys, actions[0]), actions[1..])
  }

  /** The attempts of a run that find neither. */
  function Taken(sys: System, actions: seq<Action>): seq<HistorySample>
    requires Possible(sys, actions)
    decreases |actions|
  {
    if actions == [] then []
    else
      (if actions[0].Record? && |sys.writer.channel| < CHANNEL_CAPACITY && sys.writer.running
       then [actions[0].sample] else [])
        + Taken(SystemStep(sys, actions[0]), actions[1..])
  }

  /** In every run exactly these are dropped, and exactly those are accepted, in order. */
  lemma {:induction false} DroppedIffFullOrEnded(sys: System, actions: seq<Action>)
    requires Possible(sys, actions)
    ensures SystemRun(sys, actions).writer.dropped == sys.writer.dropped + Refused(sys, actions)
    ensures SystemRun(sys, actions).accepted == sys.accepted + Taken(sys, actions)
    decreases |actions|
  {
    if actions != [] {
      var a := actions[0];
      StepTakes(sys, a);
      DroppedIffFullOrEnded(SystemStep(sys, a), actions[1..]);
      var one := if a.Record? && |sys.writer.channel| < CHANNEL_CAPACITY && sys.writer.running then [a.sample] else [];
      assert sys.accepted + one + Taken(SystemStep(sys, a), actions[1..])
             == sys.accepted + (one + Taken(SystemStep(sys, a), actions[1..]));
    }
  }

  lemma StepTakes(sys: System, a: Action)
    requires Enabled(sys.writer, a)
    ensures var room := |sys.writer.channel| < CHANNEL_CAPACITY && sys.writer.running;
            && SystemStep(sys, a).writer.dropped == sys.writer.dropped + (if a.Record? && !room then 1 else 0)
            && SystemStep(sys, a).accepted == sys.accepted + (if a.Record? && room then [a.sample] else [])
  {
  }

  // ----- waiting in the buffer

  function SampleReceives(sys: System, actions: seq<Action>): nat
    requires Possible(sys, actions)
    decreases |actions|
  {
    if actions == [] then 0
    else
      var a := actions[0];
      (if a.Receive? && a.received.Message? && sys.writer.channel[0].Sample? then 1 else 0)
        + SampleReceives(SystemStep(sys, a), actions[1..])
  }

  /** A buffered sample is handed over by the time BATCH_SIZE - 1 more samples are received. */
  lemma {:induction false} BufferedSampleWaits(sys: System, actions: seq<Action>, i: nat)
    requires Conserved(sys) && Possible(sys, actions)
    requires i < |sys.handed| + |sys.writer.buffer|
    ensures i < |SystemRun(sys, actions).handed| || SampleReceives(sys, actions) <= BATCH_SIZE - 1 - |sys.writer.buffer|
    ensures SampleReceives(sys, actions) >= BATCH_SIZE - 1 ==> i < |SystemRun(sys, actions).handed|
    decreases |actions|
  {
    if actions != [] {
      var sys' := SystemStep(sys, actions[0]);
      WriterConserves(sys, actions[..1]);
      assert actions[..1][0] == actions[0] && actions[..1][1..] == [];
      assert SystemRun(sys, actions[..1]) == sys';
      if i < |sys'.handed| + |sys'.writer.buffer| {
        BufferedSampleWaits(sys', actions[1..], i);
        HandedGrows(sys', actions[1..]);
      }
    }
  }

  lemma {:induction false} HandedGrows(sys: System, actions: seq<Action>)
    requires Possible(sys, actions)
    ensures |sys.handed| <= |SystemRun(sys, actions).handed|
    decreases |actions|
  {
    if actions != [] {
      HandedGrows(SystemStep(sys, actions[0]), actions[1..]);
    }
  }

  // ----- waiting in time

  function Iterations(actions: seq<Action>): nat {
    if actions == [] then 0 else (if actions[0].Receive? then 1 else 0) + Iterations(actions[1..])
  }

  /** How long the loop waited for messages in all. */
  function Waited(actions: seq<Action>): nat {
    if actions == [] then 0
    else (if actions[0].Receive? then actions[0].received.Wait() else 0) + Waited(actions[1..])
  }

  /** The i-th accepted sample is not handed over before any of these actions. */
  ghost predicate WaitsThrough(sys: System, actions: seq<Action>, i: nat)
    requires Possible(sys, actions)
    decreases |actions|
  {
    actions != [] ==> |sys.handed| <= i && WaitsThrough(SystemStep(sys, actions[0]), actions[1..], i)
  }

  /** A buffered sample is handed over within as many loop iterations as the buffer has places left, whatever
      those receive, and while it waits the loop waits at most the flush interval for each. */
  lemma {:induction false} BufferedSampleWaitsAtMost(sys: System, actions: seq<Action>, i: nat)
    requires Conserved(sys) && Possible(sys, actions) && WaitsThrough(sys, actions, i)
    requires i < |sys.handed| + |sys.writer.buffer|
    ensures Iterations(actions) <= BATCH_SIZE - |sys.writer.buffer|
    ensures Waited(actions) <= (BATCH_SIZE - |sys.writer.buffer|) * FLUSH_INTERVAL_MS
    decreases |actions|
  {
    if actions != [] {
      var a, sys' := actions[0], SystemStep(sys, actions[0]);
      StepConserves(sys, a);
      if a.Receive? && Flushes(sys.writer, a) {
        ReceiveEffect(sys, a);
        assert i < |sys'.handed| && actions[1..] == [];
      } else {
        BufferedSampleWaitsAtMost(sys', actions[1..], i);
      }
    }
  }

  lemma StepConserves(sys: System, a: Action)
    requires Conserved(sys) && Enabled(sys.writer, a)
    ensures Conserved(SystemStep(sys, a))
  {
    assert [a][1..] == [];
    WriterConserves(sys, [a]);
    assert SystemRun(sys, [a]) == SystemStep(sys, a);
  }

  /** A sample that comes so many ms after the loop began to wait for it. */
  datatype Arrival = Arrival(sample: HistorySample, gap: nat)

  /** What the loop does while these come, up to the first that is too late for it. */
  function Deliveries(next: seq<Arrival>): seq<Action> {
    if next == [] then []
    else if next[0].gap >= FLUSH_INTERVAL_MS then [Receive(Timeout, true)]
    else [Record(next[0].sample), Receive(Message(next[0].gap), true)] + Deliveries(next[1..])
  }

  function Arrived(sys: System, next: Arrival): System
    requires sys.writer.running && sys.writer.channel == [] && next.gap < FLUSH_INTERVAL_MS
  {
    SystemStep(SystemStep(sys, Record(next.sample)), Receive(Message(next.gap), true))
  }

  lemma ArrivalFills(sys: System, next: Arrival)
    requires sys.writer.running && sys.writer.channel == [] && next.gap < FLUSH_INTERVAL_MS
    ensures var after := Arrived(sys, next);
            && after.writer.running && after.writer.channel == []
            && if |sys.writer.buffer| + 1 < BATCH_SIZE
               then after.writer.buffer == sys.writer.buffer + [next.sample] && after.handed == sys.handed
               else after.handed == sys.handed + (sys.writer.buffer + [next.sample])
  {
    var recorded := SystemStep(sys, Record(next.sample));
    assert recorded.writer.channel == [Sample(next.sample)];
    ReceiveEffect(recorded, Receive(Message(next.gap), true));
  }

  lemma {:induction false} DeliveriesRun(sys: System, next: seq<Arrival>)
    requires sys.writer.running && sys.writer.channel == []
    requires sys.writer.buffer != [] && |sys.writer.buffer| + |next| == BATCH_SIZE
    ensures var actions := Deliveries(next);
            && Possible(sys, actions) && WaitsThrough(sys, actions, |sys.handed|)
            && (next != [] ==> |sys.handed| < |SystemRun(sys, actions).handed|)
    decreases |next|
  {
    if next != [] && next[0].gap >= FLUSH_INTERVAL_MS {
      TimeoutFlushes(sys);
    } else if next != [] {
      var after, rest := Arrived(sys, next[0]), Deliveries(next[1..]);
      ArrivalFills(sys, next[0]);
      if |next| == 1 {
        assert Possible(after, rest) && SystemRun(after, rest) == after && WaitsThrough(after, rest, |sys.handed|);
      } else {
        DeliveriesRun(after, next[1..]);
      }
      TwoActions(sys, Record(next[0].sample), Receive(Message(next[0].gap), true), rest, |sys.handed|);
    }
  }

  lemma TimeoutFlushes(sys: System)
    requires sys.writer.running && sys.writer.channel == [] && sys.writer.buffer != []
    ensures var actions := [Receive(Timeout, true)];
            && Possible(sys, actions) && WaitsThrough(sys, actions, |sys.handed|)
            && |sys.handed| < |SystemRun(sys, actions).handed|
  {
    var a := Receive(Timeout, true);
    ReceiveEffect(sys, a);
    assert [a][1..] == [];
    assert Possible(SystemStep(sys, a), []);
  }

  lemma TwoActions(sys: System, a: Action, b: Action, rest: seq<Action>, i: nat)
    requires Enabled(sys.writer, a) && Enabled(SystemStep(sys, a).writer, b)
    requires Possible(SystemStep(SystemStep(sys, a), b), rest)
    requires |sys.handed| <= i && |SystemStep(sys, a).handed| <= i
    requires WaitsThrough(SystemStep(SystemStep(sys, a), b), rest, i)
    ensures Possible(sys, [a, b] + rest) && WaitsThrough(sys, [a, b] + rest, i)
    ensures SystemRun(sys, [a, b] + rest) == SystemRun(SystemStep(SystemStep(sys, a), b), rest)
  {
    var sys1, actions := SystemStep(sys, a), [a, b] + rest;
    assert actions[1..] == [b] + rest && ([b] + rest)[1..] == rest;
    assert Possible(sys1, [b] + rest) && WaitsThrough(sys1, [b] + rest, i);
  }

  function SumGaps(next: seq<Arrival>): nat {
    if next == [] then 0 else next[0].gap + SumGaps(next[1..])
  }

  /** Some sample comes too late after others that came at once. */
  ghost predicate PauseFirst(next: seq<Arrival>) {
    exists k :: 0 <= k < |next| && PauseAt(next, k)
  }

  ghost predicate PauseAt(next: seq<Arrival>, k: nat)
    requires k < |next|
  {
    next[k].gap >= FLUSH_INTERVAL_MS && forall j | 0 <= j < k :: next[j].gap == 0
  }

  lemma DeliveriesWait(next: seq<Arrival>)
    requires next != []
    ensures Waited(Deliveries(next))
              == if next[0].gap >= FLUSH_INTERVAL_MS then FLUSH_INTERVAL_MS
                 else next[0].gap + Waited(Deliveries(next[1..]))
  {
    if next[0].gap >= FLUSH_INTERVAL_MS {
      assert [Receive(Timeout, true)][1..] == [];
    } else {
      var a, b, rest := Record(next[0].sample), Receive(Message(next[0].gap), true), Deliveries(next[1..]);
      assert ([a, b] + rest)[1..] == [b] + rest && ([b] + rest)[1..] == rest;
      assert Waited([b] + rest) == next[0].gap + Waited(rest);
    }
  }

  lemma PauseCons(next: seq<Arrival>)
    requires next != []
    ensures PauseFirst(next) <==> next[0].gap >= FLUSH_INTERVAL_MS || (next[0].gap == 0 && PauseFirst(next[1..]))
  {
    if next[0].gap >= FLUSH_INTERVAL_MS {
      assert PauseAt(next, 0);
    }
    if next[0].gap == 0 && PauseFirst(next[1..]) {
      var k :| 0 <= k < |next[1..]| && PauseAt(next[1..], k);
      assert PauseAt(next, k + 1);
    }
    if PauseFirst(next) {
      var k :| 0 <= k < |next| && PauseAt(next, k);
      assert k > 0 ==> PauseAt(next[1..], k - 1);
    }
  }

  lemma {:induction false} WaitedIff(next: seq<Arrival>, spent: nat)
    ensures spent + Waited(Deliveries(next)) <= FLUSH_INTERVAL_MS <==>
            spent + SumGaps(next) <= FLUSH_INTERVAL_MS || (spent == 0 && PauseFirst(next))
    ensures SumGaps(next) == 0 ==> !PauseFirst(next)
    decreases |next|
  {
    if next != [] {
      DeliveriesWait(next);
      PauseCons(next);
      WaitedIff(next[1..], spent + next[0].gap);
    }
  }

  /** The flush interval is therefore not a bound on the wait. Whatever is in the buffer, its oldest sample is handed
      over within that interval exactly when the samples that fill the buffer up come within it all told, or one
      keeps the loop waiting that long and those before it did not keep it waiting at all. */
  lemma FlushIntervalIsBoundIff(sys: System, next: seq<Arrival>)
    requires sys.writer.running && sys.writer.channel == []
    requires sys.writer.buffer != [] && next != [] && |sys.writer.buffer| + |next| == BATCH_SIZE
    ensures var actions := Deliveries(next);
            && Possible(sys, actions) && WaitsThrough(sys, actions, |sys.handed|)
            && |sys.handed| < |SystemRun(sys, actions).handed|
    ensures Waited(Deliveries(next)) <= FLUSH_INTERVAL_MS <==>
            SumGaps(next) <= FLUSH_INTERVAL_MS || PauseFirst(next)
  {
    DeliveriesRun(sys, next);
    WaitedIff(next, 0);
  }

  /** At a steady pace. */
  predicate Steady(next: seq<Arrival>, gap: nat) {
    forall k | 0 <= k < |next| :: next[k].gap == gap
  }

  lemma {:induction false} SteadySum(next: seq<Arrival>, gap: nat)
    requires Steady(next, gap)
    ensures SumGaps(next) == |next| * gap
  {
    if next != [] {
      SteadySum(next[1..], gap);
      assert |next| * gap == gap + (|next| - 1) * gap;
    }
  }

  /** The first sample of a batch is in time at a steady pace if and only if the samples come at most 555 ms apart
      or at least the interval apart. */
  lemma SteadyPaceIsInTimeIff(next: seq<Arrival>, gap: nat)
    requires |next| == BATCH_SIZE - 1 && Steady(next, gap)
    ensures Waited(Deliveries(next)) <= FLUSH_INTERVAL_MS <==> gap <= 555 || gap >= FLUSH_INTERVAL_MS
  {
    SteadySum(next, gap);
    WaitedIff(next, 0);
    PauseCons(next);
  }
}
