/** The single-slot, latest-wins mailbox. Each operation below is one critical section under the slot's
    lock; any sequence of them is an interleaving of producers and consumers. */
module Mailboxes {
  import opened Options

  datatype Mail<T> = Mail(slot: Option<T>, produced: nat, coalesced: nat, taken: nat)

  /** `Take` is `try_take`, and either half of `take_timeout`: the look before the wait, and the look
      after a wait that a value, a bare notify, a spurious wakeup or the timeout ended. */
  datatype Op<T> = Put(value: T) | Take | Notify

  function MailStep<T>(m: Mail<T>, op: Op<T>): Mail<T> {
    match op
    case Put(v) => Mail(Some(v), m.produced + 1, m.coalesced + (if m.slot.Some? then 1 else 0), m.taken)
    case Take => m.(slot := None, taken := m.taken + if m.slot.Some? then 1 else 0)
    case Notify => m
  }

  function MailRun<T>(m: Mail<T>, ops: seq<Op<T>>): Mail<T> {
    if ops == [] then m else MailStep(MailRun(m, ops[..|ops| - 1]), ops[|ops| - 1])
  }

  class Mailbox<T> {
    var slot: Option<T>
    var produced: nat
    var coalesced: nat
    var taken: nat

    ghost function State(): Mail<T>
      reads this
    {
      Mail(slot, produced, coalesced, taken)
    }

    constructor ()
      ensures State() == Mail(None, 0, 0, 0)
    {
      slot, produced, coalesced, taken := None, 0, 0, 0;
    }

    method PutValue(value: T)
      modifies this
      ensures State() == MailStep(old(State()), Put(value))
    {
      produced := produced + 1;
      if slot.Some? {
        coalesced := coalesced + 1;
      }
      slot := Some(value);
    }

    method TryTake() returns (v: Option<T>)
      modifies this
      ensures v == old(slot) && State() == MailStep(old(State()), Take)
    {
      v := slot;
      slot := None;
      if v.Some? {
        taken := taken + 1;
      }
    }

    /** `take_timeout`: a value that is there is taken at once. Otherwise the lock is released while other threads
        run the operations in `meanwhile`, none if nothing happened before the timeout, and one look after the
        wait takes whatever they left. */
    method TakeTimeout(meanwhile: seq<Op<T>>) returns (v: Option<T>)
      modifies this
      ensures var before := if old(slot).Some? then old(State()) else MailRun(old(State()), meanwhile);
              v == before.slot && State() == MailStep(before, Take)
    {
      if slot.None? {
        for i := 0 to |meanwhile|
          invariant State() == MailRun(old(State()), meanwhile[..i])
        {
          assert meanwhile[..i + 1][..i] == meanwhile[..i];
          match meanwhile[i] {
            case Put(value) => PutValue(value);
            case Take => var _ := TryTake();
            case Notify =>
          }
        }
        assert meanwhile[..|meanwhile|] == meanwhile;
      }
      v := TryTake();
    }
  }

  // ----- every interleaving

  /** The mailbox beside what the specification remembers: every value put, every value taken, and
      which put each taken value came from. */
  datatype Record<T> = Record(mail: Mail<T>, puts: seq<T>, got: seq<T>, from: seq<nat>)

  function RecordStep<T>(r: Record<T>, op: Op<T>): Record<T> {
    var mail := MailStep(r.mail, op);
    match op
    case Put(v) => r.(mail := mail, puts := r.puts + [v])
    case Take =>
      if r.mail.slot.Some? then
        Record(mail, r.puts, r.got + [r.mail.slot.value], r.from + [if r.puts == [] then 0 else |r.puts| - 1])
      else r.(mail := mail)
    case Notify => r
  }

  function RunOps<T>(ops: seq<Op<T>>): Record<T> {
    if ops == [] then Record(Mail(None, 0, 0, 0), [], [], [])
    else RecordStep(RunOps(ops[..|ops| - 1]), ops[|ops| - 1])
  }

  /** The record's mailbox is the one the methods make of the same operations. */
  lemma {:induction false} RecordFollowsMail<T>(ops: seq<Op<T>>)
    ensures RunOps(ops).mail == MailRun(Mail(None, 0, 0, 0), ops)
  {
    if ops != [] {
      RecordFollowsMail(ops[..|ops| - 1]);
    }
  }

  /** The taken values are an in-order, repeat-free subsequence of the puts, the slot holds the newest
      put that nobody took, and every put is taken, coalesced or waiting. */
  ghost predicate Faithful<T>(r: Record<T>) {
    && r.mail.produced == |r.puts| == r.mail.taken + r.mail.coalesced + (if r.mail.slot.Some? then 1 else 0)
    && r.mail.taken == |r.got| == |r.from|
    && (forall k | 0 <= k < |r.from| :: r.from[k] < |r.puts| && r.got[k] == r.puts[r.from[k]])
    && (forall k, l | 0 <= k < l < |r.from| :: r.from[k] < r.from[l])
    && (match r.mail.slot
        case Some(v) => r.puts != [] && v == r.puts[|r.puts| - 1]
                        && (r.from != [] ==> r.from[|r.from| - 1] < |r.puts| - 1)
        case None => r.puts != [] ==> r.from != [] && r.from[|r.from| - 1] == |r.puts| - 1)
  }

  lemma {:induction false} MailboxIsFaithful<T>(ops: seq<Op<T>>)
    ensures Faithful(RunOps(ops))
  {
    if ops != [] {
      MailboxIsFaithful(ops[..|ops| - 1]);
      RecordKeepsFaithful(RunOps(ops[..|ops| - 1]), ops[|ops| - 1]);
    }
  }

  lemma RecordKeepsFaithful<T>(r: Record<T>, op: Op<T>)
    requires Faithful(r)
    ensures Faithful(RecordStep(r, op))
  {
  }

  /** What a take in this state returns. */
  lemma FaithfulTake<T>(r: Record<T>)
    requires Faithful(r)
    ensures var after := RecordStep(r, Take);
            if r.mail.slot.Some? then r.puts != [] && after.got == r.got + [r.puts[|r.puts| - 1]]
            else after.got == r.got && (r.puts != [] ==> r.got != [] && r.got[|r.got| - 1] == r.puts[|r.puts| - 1])
  {
  }

  /** A successful take returns the most recent put, and one that comes back empty means the most
      recent put was already taken. */
  lemma TakeReturnsLatest<T>(ops: seq<Op<T>>)
    ensures var before, after := RunOps(ops), RunOps(ops + [Take]);
            if before.mail.slot.Some? then
              before.puts != [] && after.got == before.got + [before.puts[|before.puts| - 1]]
            else
              after.got == before.got
              && (before.puts != [] ==>
                    before.got != [] && before.got[|before.got| - 1] == before.puts[|before.puts| - 1])
  {
    MailboxIsFaithful(ops);
    FaithfulTake(RunOps(ops));
    assert (ops + [Take])[..|ops|] == ops;
    assert RunOps(ops + [Take]) == RecordStep(RunOps(ops), Take);
  }
}
