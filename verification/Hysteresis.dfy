/** Alert debouncing: the engine that keeps a counter pair per alert id, and the specification over
    the whole candidate history that it refines. */
module Hysteresis {
  import opened Options

  datatype Severity = Critical | Warning | Info

  function SeverityRank(s: Severity): nat {
    match s
    case Critical => 0
    case Warning => 1
    case Info => 2
  }

  /** A candidate: what the engine looks at, and the rest of it. */
  datatype Alert<T> = Alert(id: string, severity: Severity, detail: T)

  datatype AlertState<T> = AlertState(present: nat, absent: nat, active: bool, latest: Option<Alert<T>>)

  type States<T> = map<string, AlertState<T>>

  const HYSTERESIS_TICKS: nat := 3

  // ----- one evaluation

  function Bumped<T>(states: States<T>, alert: Alert<T>, ticks: nat): States<T> {
    var st := if alert.id in states then states[alert.id] else AlertState(0, 0, false, None);
    states[alert.id := AlertState(st.present + 1, 0, st.active || st.present + 1 >= ticks, Some(alert))]
  }

  function BumpAll<T>(states: States<T>, candidates: seq<Alert<T>>, ticks: nat): States<T> {
    if candidates == [] then states
    else Bumped(BumpAll(states, candidates[..|candidates| - 1], ticks), candidates[|candidates| - 1], ticks)
  }

  function Ids<T>(candidates: seq<Alert<T>>): set<string> {
    set i | 0 <= i < |candidates| :: candidates[i].id
  }

  lemma IdsAppend<T>(candidates: seq<Alert<T>>, i: nat)
    requires i < |candidates|
    ensures Ids(candidates[..i + 1]) == Ids(candidates[..i]) + {candidates[i].id}
  {
    var longer := candidates[..i + 1];
    assert longer[i] == candidates[i];
    forall id | id in Ids(candidates[..i]) ensures id in Ids(longer) {
      var j :| 0 <= j < i && candidates[..i][j].id == id;
      assert longer[j].id == id;
    }
    forall id | id in Ids(longer) && id != candidates[i].id ensures id in Ids(candidates[..i]) {
      var j :| 0 <= j < i + 1 && longer[j].id == id;
      assert candidates[..i][j].id == id;
    }
  }

  function Aged<T>(st: AlertState<T>, ticks: nat): AlertState<T> {
    AlertState(0, st.absent + 1, st.active && st.absent + 1 < ticks, st.latest)
  }

  function AgeAll<T>(states: States<T>, seen: set<string>, ticks: nat): States<T> {
    map id | id in states :: if id in seen then states[id] else Aged(states[id], ticks)
  }

  function Retained<T>(states: States<T>, ticks: nat): States<T> {
    map id | id in states && (states[id].active || states[id].absent < ticks) :: states[id]
  }

  function Evaluated<T>(states: States<T>, candidates: seq<Alert<T>>, ticks: nat): States<T> {
    Retained(AgeAll(BumpAll(states, candidates, ticks), Ids(candidates), ticks), ticks)
  }

  // ----- sorting the report

  function InsertBySeverity<T>(alert: Alert<T>, sorted: seq<Alert<T>>): seq<Alert<T>> {
    if sorted == [] || SeverityRank(alert.severity) < SeverityRank(sorted[0].severity) then [alert] + sorted
    else [sorted[0]] + InsertBySeverity(alert, sorted[1..])
  }

  /** The library's stable sort by severity rank. */
  function SortBySeverity<T>(alerts: seq<Alert<T>>): seq<Alert<T>> {
    if alerts == [] then [] else InsertBySeverity(alerts[|alerts| - 1], SortBySeverity(alerts[..|alerts| - 1]))
  }

  ghost predicate RankSorted<T>(alerts: seq<Alert<T>>) {
    forall i, j | 0 <= i < j < |alerts| :: SeverityRank(alerts[i].severity) <= SeverityRank(alerts[j].severity)
  }

  /** Nothing comes before a critical alert but critical ones, and nothing after an informational one but
      informational ones. */
  ghost predicate MostSevereFirst<T>(alerts: seq<Alert<T>>) {
    forall i, j | 0 <= i < j < |alerts| ::
      && (alerts[j].severity == Critical ==> alerts[i].severity == Critical)
      && (alerts[i].severity == Info ==> alerts[j].severity == Info)
  }

  lemma {:induction false} InsertBySeverityBound<T>(alert: Alert<T>, sorted: seq<Alert<T>>, rank: nat)
    requires rank <= SeverityRank(alert.severity)
    requires forall i | 0 <= i < |sorted| :: rank <= SeverityRank(sorted[i].severity)
    ensures forall i | 0 <= i < |InsertBySeverity(alert, sorted)| ::
              rank <= SeverityRank(InsertBySeverity(alert, sorted)[i].severity)
  {
    if sorted != [] && SeverityRank(alert.severity) >= SeverityRank(sorted[0].severity) {
      InsertBySeverityBound(alert, sorted[1..], rank);
    }
  }

  lemma {:induction false} InsertBySeveritySorts<T>(alert: Alert<T>, sorted: seq<Alert<T>>)
    requires RankSorted(sorted)
    ensures RankSorted(InsertBySeverity(alert, sorted))
  {
    if sorted != [] && SeverityRank(alert.severity) >= SeverityRank(sorted[0].severity) {
      InsertBySeveritySorts(alert, sorted[1..]);
      InsertBySeverityBound(alert, sorted[1..], SeverityRank(sorted[0].severity));
    }
  }

  lemma {:induction false} InsertBySeverityAdds<T>(alert: Alert<T>, sorted: seq<Alert<T>>)
    ensures multiset(InsertBySeverity(alert, sorted)) == multiset(sorted) + multiset{alert}
  {
    if sorted != [] {
      assert sorted == [sorted[0]] + sorted[1..];
      if SeverityRank(alert.severity) >= SeverityRank(sorted[0].severity) {
        InsertBySeverityAdds(alert, sorted[1..]);
      }
    }
  }

  lemma {:induction false} SortBySeveritySorts<T>(alerts: seq<Alert<T>>)
    ensures RankSorted(SortBySeverity(alerts)) && MostSevereFirst(SortBySeverity(alerts))
    ensures multiset(SortBySeverity(alerts)) == multiset(alerts)
  {
    if alerts != [] {
      assert alerts == alerts[..|alerts| - 1] + [alerts[|alerts| - 1]];
      SortBySeveritySorts(alerts[..|alerts| - 1]);
      InsertBySeveritySorts(alerts[|alerts| - 1], SortBySeverity(alerts[..|alerts| - 1]));
      InsertBySeverityAdds(alerts[|alerts| - 1], SortBySeverity(alerts[..|alerts| - 1]));
    }
  }

  /** What an evaluation reports about a state map: the latest instance of every active id, each once,
      most severe first. */
  ghost predicate IsReport<T(!new)>(out: seq<Alert<T>>, states: States<T>) {
    && MostSevereFirst(out)
    && forall a :: multiset(out)[a] == if Reported(states, a) then 1 else 0
  }

  predicate Reported<T(==)>(states: States<T>, a: Alert<T>) {
    a.id in states && states[a.id].active && states[a.id].latest == Some(a)
  }

  /** Every entry remembers an instance of its own id. */
  ghost predicate Keyed<T>(states: States<T>) {
    forall id | id in states :: states[id].latest.Some? && states[id].latest.value.id == id
  }

  lemma {:induction false} BumpAllKeyed<T>(states: States<T>, candidates: seq<Alert<T>>, ticks: nat)
    requires Keyed(states)
    ensures Keyed(BumpAll(states, candidates, ticks))
  {
    if candidates != [] {
      BumpAllKeyed(states, candidates[..|candidates| - 1], ticks);
    }
  }

  lemma EvaluatedKeyed<T>(states: States<T>, candidates: seq<Alert<T>>, ticks: nat)
    requires Keyed(states)
    ensures Keyed(Evaluated(states, candidates, ticks))
  {
    BumpAllKeyed(states, candidates, ticks);
  }

  class HysteresisEngine<T(==, !new)> {
    var states: States<T>
    const ticks: nat

    constructor WithTicks(ticks: nat)
      ensures states == map[] && this.ticks == ticks
    {
      states := map[];
      this.ticks := ticks;
    }

    method Evaluate(candidates: seq<Alert<T>>) returns (out: seq<Alert<T>>)
      requires Keyed(states)
      modifies this
      ensures states == Evaluated(old(states), candidates, ticks) && Keyed(states)
      ensures IsReport(out, states)
    {
      var seen := {};
      for i := 0 to |candidates|
        invariant seen == Ids(candidates[..i])
        invariant states == BumpAll(old(states), candidates[..i], ticks)
      {
        var alert := candidates[i];
        var st := if alert.id in states then states[alert.id] else AlertState(0, 0, false, None);
        seen := seen + {alert.id};
        states := states[alert.id := AlertState(st.present + 1, 0, st.active || st.present + 1 >= ticks, Some(alert))];
        assert candidates[..i + 1][..i] == candidates[..i];
        IdsAppend(candidates, i);
      }
      assert candidates[..|candidates|] == candidates;
      EvaluatedKeyed(old(states), candidates, ticks);
      Age(seen);
      states := Retained(states, ticks);
      out := Collect();
    }

    /** An absence is counted for every id that was not among the candidates. */
    method Age(seen: set<string>)
      modifies this
      ensures states == AgeAll(old(states), seen, ticks)
    {
      var todo := states.Keys - seen;
      while todo != {}
        invariant todo <= states.Keys - seen
        invariant states.Keys == old(states).Keys
        invariant forall id | id in states ::
                    states[id] == if id in seen || id in todo then old(states)[id] else Aged(old(states)[id], ticks)
        decreases |todo|
      {
        var id :| id in todo;
        states := states[id := Aged(states[id], ticks)];
        todo := todo - {id};
      }
    }

    /** Visits the entries in any order, as the hash map does. */
    method Collect() returns (out: seq<Alert<T>>)
      requires Keyed(states)
      ensures IsReport(out, states)
    {
      var todo := states.Keys;
      var found: seq<Alert<T>> := [];
      while todo != {}
        invariant todo <= states.Keys
        invariant forall a :: multiset(found)[a] == if Reported(states, a) && a.id !in todo then 1 else 0
        decreases |todo|
      {
        var id :| id in todo;
        todo := todo - {id};
        if states[id].active && states[id].latest.Some? {
          found := found + [states[id].latest.value];
        }
      }
      SortBySeveritySorts(found);
      out := SortBySeverity(found);
    }
  }
}
