/** The writer thread: a bounded channel, a batch buffer, and the maintenance passes. One action is
    one atomic step of one thread, so a sequence of actions is an interleaving. */
module HistoryWriters {
  import opened HistoryTypes
  import opened HistoryDb
  import opened HistoryStores

  const BATCH_SIZE: nat := 10
  const CHANNEL_CAPACITY: nat := 256

  datatype Msg = Sample(sample: HistorySample) | Stop

  /** How long `recv_timeout` waits for a message. */
  const FLUSH_INTERVAL_MS: nat := 5_000

  /** What `recv_timeout` came back with, and after how long. */
  datatype Received = Message(waited: nat) | Timeout | Disconnected(waited: nat) {
    function Wait(): nat {
      if Timeout? then FLUSH_INTERVAL_MS else waited
    }
  }

  /** A maintenance pass that was due: its clock, and how many statements of each part ran. */
  datatype Maintenance = Maintenance(now: int, rollupSlots: nat, retainSlots: nat)

  /** The producer stamps a sample at the start of its frame and records it at the end; an iteration of the loop
      receives, and then runs a maintenance pass if one is due. Other actions can come between the two of each. */
  datatype Action =
    | Stamp(ts: int)
    | Record(sample: HistorySample)
    | SendStop
    | Receive(received: Received, commits: bool)
    | Maintain(pass: Maintenance)

  /** `received` while the current iteration has received and not maintained. */
  datatype Writer =
    Writer(channel: seq<Msg>, buffer: seq<HistorySample>, running: bool, received: bool, dropped: nat)

  const NewWriter := Writer([], [], true, false, 0)

  /** `send` blocks while the channel is full; `recv_timeout` prefers a waiting message. */
  predicate Enabled(w: Writer, a: Action) {
    match a
    case Stamp(_) => true
    case Record(_) => true
    case SendStop => w.running ==> |w.channel| < CHANNEL_CAPACITY
    case Receive(received, _) =>
      && w.running && (received.Message? <==> w.channel != [])
      && (!received.Timeout? ==> received.waited < FLUSH_INTERVAL_MS)
    case Maintain(_) => w.running && w.received
  }

  /** Whether this action empties the buffer. */
  predicate Flushes(w: Writer, a: Action)
    requires Enabled(w, a)
  {
    && a.Receive?
    && (a.received.Message? && w.channel[0].Sample? ==> |w.buffer| + 1 >= BATCH_SIZE)
  }

  /** Whether this action ends the loop. */
  predicate Ends(w: Writer, a: Action)
    requires Enabled(w, a)
  {
    a.Receive? && (a.received.Disconnected? || (a.received.Message? && w.channel[0].Stop?))
  }

  /** The buffer once the received sample, if any, is pushed. */
  function Filled(w: Writer, a: Action): seq<HistorySample>
    requires Enabled(w, a)
  {
    if a.Receive? && a.received.Message? && w.channel[0].Sample? then w.buffer + [w.channel[0].sample] else w.buffer
  }

  function WriterStep(w: Writer, a: Action): Writer
    requires Enabled(w, a)
  {
    match a
    case Stamp(_) => w
    case Record(sample) =>
      if w.running && |w.channel| < CHANNEL_CAPACITY then w.(channel := w.channel + [Sample(sample)])
      else w.(dropped := w.dropped + 1)
    case SendStop => if w.running then w.(channel := w.channel + [Stop]) else w
    case Receive(received, _) =>
      Writer(if received.Message? then w.channel[1..] else w.channel,
             if Flushes(w, a) then [] else Filled(w, a), !Ends(w, a), !Ends(w, a), w.dropped)
    case Maintain(_) => w.(received := false)
  }

  function FlushDb(db: Db, batch: seq<HistorySample>, commits: bool): Db {
    if commits && batch != [] then InsertBatch(db, batch) else db
  }

  function MaintainDb(db: Db, m: Maintenance): Db {
    RetentionSlots(RollupSlots(db, m.now, m.rollupSlots), m.now, m.retainSlots)
  }

  /** What the action does to the database. Retention runs whether or not the rollup got through. */
  function DbStep(w: Writer, db: Db, a: Action): Db
    requires Enabled(w, a)
  {
    match a
    case Receive(_, commits) => if Flushes(w, a) then FlushDb(db, Filled(w, a), commits) else db
    case Maintain(pass) => MaintainDb(db, pass)
    case _ => db
  }

  class HistoryWriter {
    var channel: seq<Msg>
    var buffer: seq<HistorySample>
    var running: bool
    var received: bool
    var dropped: nat
    const store: HistoryStore

    ghost function State(): Writer
      reads this
    {
      Writer(channel, buffer, running, received, dropped)
    }

    constructor (store: HistoryStore)
      ensures State() == NewWriter && this.store == store
    {
      channel, buffer, running, received, dropped := [], [], true, false, 0;
      this.store := store;
    }

    /** Never blocks: a full channel, or a writer that is gone, costs the sample. */
    method TryRecord(sample: HistorySample)
      modifies this
      ensures State() == WriterStep(old(State()), Record(sample))
    {
      if running && |channel| < CHANNEL_CAPACITY {
        channel := channel + [Sample(sample)];
      } else {
        dropped := dropped + 1;
      }
    }

    method RequestStop()
      requires Enabled(State(), SendStop)
      modifies this
      ensures State() == WriterStep(old(State()), SendStop)
    {
      if running {
        channel := channel + [Stop];
      }
    }

    /** A failed batch is dropped, not retried. */
    method Flush(commits: bool)
      modifies this`buffer, store
      ensures buffer == [] && store.db == FlushDb(old(store.db), old(buffer), commits)
    {
      if buffer == [] {
        return;
      }
      var _ := store.InsertRawBatch(buffer, commits);
      buffer := [];
    }

    /** The first half of an iteration: one `recv_timeout`, and what follows from its result. */
    method ReceiveNext(next: Received, commits: bool)
      requires Enabled(State(), Receive(next, commits))
      modifies this, store
      ensures State() == WriterStep(old(State()), Receive(next, commits))
      ensures store.db == DbStep(old(State()), old(store.db), Receive(next, commits))
    {
      var shouldStop := false;
      match next {
        case Message(_) =>
          var msg := channel[0];
          channel := channel[1..];
          match msg {
            case Sample(s) =>
              buffer := buffer + [s];
              if |buffer| >= BATCH_SIZE {
                Flush(commits);
              }
            case Stop => shouldStop := true;
          }
        case Timeout => Flush(commits);
        case Disconnected(_) => shouldStop := true;
      }
      if shouldStop {
        Flush(commits);
        running := false;
      }
      received := running;
    }

    /** The second half, when a pass is due. */
    method MaintainStore(pass: Maintenance)
      requires Enabled(State(), Maintain(pass))
      modifies this`received, store
      ensures State() == WriterStep(old(State()), Maintain(pass))
      ensures store.db == DbStep(old(State()), old(store.db), Maintain(pass))
    {
      var _ := store.Rollup(pass.now, pass.rollupSlots);
      var _ := store.ApplyRetention(pass.now, pass.retainSlots);
      received := false;
    }
  }
}
