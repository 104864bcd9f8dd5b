/** The engine's behaviour over a whole history of evaluations. */
module HysteresisTheorems {
  import opened Options
  import opened Arithmetic
  import opened Hysteresis

  /** The candidates of each evaluation, oldest first. */
  type History<T> = seq<seq<Alert<T>>>

  function EngineStates<T>(h: History<T>, ticks: nat): States<T> {
    if h == [] then map[] else Evaluated(EngineStates(h[..|h| - 1], ticks), h[|h| - 1], ticks)
  }

  function Instances<T>(candidates: seq<Alert<T>>, id: string): nat {
    if candidates == [] then 0
    else Instances(candidates[..|candidates| - 1], id) + if candidates[|candidates| - 1].id == id then 1 else 0
  }

  function LastInstance<T>(candidates: seq<Alert<T>>, id: string): Option<Alert<T>> {
    if candidates == [] then None
    else if candidates[|candidates| - 1].id == id then Some(candidates[|candidates| - 1])
    else LastInstance(candidates[..|candidates| - 1], id)
  }

  predicate PresentAt<T>(h: History<T>, k: nat, id: string)
    requires k < |h|
  {
    Instances(h[k], id) > 0
  }

  /** Instances in the unbroken run of presences that ends the history. */
  function Streak<T>(h: History<T>, id: string): nat {
    if h == [] || Instances(h[|h| - 1], id) == 0 then 0
    else Streak(h[..|h| - 1], id) + Instances(h[|h| - 1], id)
  }

  /** Evaluations since the id was last present; the whole history if it never was. */
  function Absence<T>(h: History<T>, id: string): nat {
    if h == [] || Instances(h[|h| - 1], id) > 0 then 0 else Absence(h[..|h| - 1], id) + 1
  }

  function Latest<T>(h: History<T>, id: string): Option<Alert<T>> {
    if h == [] then None
    else if Instances(h[|h| - 1], id) > 0 then LastInstance(h[|h| - 1], id)
    else Latest(h[..|h| - 1], id)
  }

  /** A debounce length of zero acts as one. */
  function Needed(ticks: nat): nat {
    if ticks == 0 then 1 else ticks
  }

  /** The specification: at evaluation `j` a run of presences with enough instances is complete... */
  ghost predicate Raised<T>(h: History<T>, id: string, j: nat, ticks: nat)
    requires j < |h|
  {
    Streak(h[..j + 1], id) >= Needed(ticks)
  }

  /** ...and at evaluation `k` a run of enough absences. */
  ghost predicate Cleared<T>(h: History<T>, id: string, k: nat, ticks: nat)
    requires k < |h|
  {
    && k + 1 >= Needed(ticks)
    && forall i: nat | k + 1 - Needed(ticks) <= i <= k :: !PresentAt(h, i, id)
  }

  /** Some completed run of presences is not followed by a completed run of absences. */
  ghost predicate ShouldReport<T>(h: History<T>, id: string, ticks: nat) {
    exists j: nat :: j < |h| && Raised(h, id, j, ticks) && forall k: nat | j < k < |h| :: !Cleared(h, id, k, ticks)
  }

  /** The same by recursion over the history. */
  function Active<T>(h: History<T>, id: string, ticks: nat): bool {
    if h == [] then false
    else if Instances(h[|h| - 1], id) > 0 then Streak(h, id) >= Needed(ticks) || Active(h[..|h| - 1], id, ticks)
    else Absence(h, id) < Needed(ticks) && Active(h[..|h| - 1], id, ticks)
  }

  lemma {:induction false} InstancesInIds<T>(candidates: seq<Alert<T>>, id: string)
    ensures id in Ids(candidates) <==> Instances(candidates, id) > 0
  {
    if candidates != [] {
      var n := |candidates| - 1;
      InstancesInIds(candidates[..n], id);
      if id in Ids(candidates[..n]) {
        var i :| 0 <= i < n && candidates[..n][i].id == id;
        assert candidates[i].id == id;
      }
      if id in Ids(candidates) {
        var i :| 0 <= i < |candidates| && candidates[i].id == id;
        assert i < n ==> candidates[..n][i].id == id;
      }
    }
  }

  lemma {:induction false} BumpAllAt<T>(states: States<T>, candidates: seq<Alert<T>>, id: string, ticks: nat)
    ensures var n := Instances(candidates, id);
            var after := BumpAll(states, candidates, ticks);
            var st := if id in states then states[id] else AlertState(0, 0, false, None);
            if n == 0 then (id in after <==> id in states) && (id in states ==> after[id] == st)
            else id in after
                 && after[id] == AlertState(st.present + n, 0, st.active || st.present + n >= ticks,
                                            LastInstance(candidates, id))
  {
    if candidates != [] {
      BumpAllAt(states, candidates[..|candidates| - 1], id, ticks);
    }
  }

  /** An id's whole bookkeeping is a function of the history, and it has an entry exactly when it was
      present within the last `Needed(ticks)` evaluations. */
  lemma {:induction false} EngineRefinesHistory<T>(h: History<T>, id: string, ticks: nat)
    ensures id in EngineStates(h, ticks) <==> Absence(h, id) < Needed(ticks) && Latest(h, id).Some?
    ensures id in EngineStates(h, ticks) ==>
              EngineStates(h, ticks)[id]
                == AlertState(Streak(h, id), Absence(h, id), Active(h, id, ticks), Latest(h, id))
    ensures Active(h, id, ticks) ==> Absence(h, id) < Needed(ticks) && Latest(h, id).Some?
    ensures Absence(h, id) > 0 || Latest(h, id).None? ==> Streak(h, id) == 0
  {
    if h != [] {
      var before, last := h[..|h| - 1], h[|h| - 1];
      EngineRefinesHistory(before, id, ticks);
      BumpAllAt(EngineStates(before, ticks), last, id, ticks);
      InstancesInIds(last, id);
      LastInstanceExists(last, id);
      var states := EngineStates(before, ticks);
      var bumped := BumpAll(states, last, ticks);
      var aged := AgeAll(bumped, Ids(last), ticks);
      assert EngineStates(h, ticks) == Retained(aged, ticks);
      if Instances(last, id) > 0 {
        assert aged[id] == AlertState(Streak(h, id), 0, Active(h, id, ticks), Latest(h, id));
      } else if id in states {
        assert aged[id] == Aged(states[id], ticks);
      }
    }
  }

  lemma {:induction false} LastInstanceExists<T>(candidates: seq<Alert<T>>, id: string)
    ensures Instances(candidates, id) > 0 <==> LastInstance(candidates, id).Some?
    ensures LastInstance(candidates, id).Some? ==> LastInstance(candidates, id).value.id == id
  {
    if candidates != [] {
      LastInstanceExists(candidates[..|candidates| - 1], id);
    }
  }

  /** `Absence` counts exactly the absences that end the history. */
  lemma {:induction false} AbsenceMeaning<T>(h: History<T>, id: string, n: nat)
    requires n <= |h|
    ensures Absence(h, id) >= n <==> forall i: nat | |h| - n <= i < |h| :: !PresentAt(h, i, id)
    ensures Absence(h, id) <= |h|
  {
    if h != [] && n > 0 {
      var before := h[..|h| - 1];
      AbsenceMeaning(before, id, n - 1);
      assert forall i: nat | i < |before| :: before[i] == h[i];
      if Absence(h, id) >= n {
        forall i: nat | |h| - n <= i < |h| ensures !PresentAt(h, i, id) {
          assert i < |before| ==> !PresentAt(before, i, id);
        }
      }
      if forall i: nat | |h| - n <= i < |h| :: !PresentAt(h, i, id) {
        assert !PresentAt(h, |h| - 1, id);
        forall i: nat | |before| - (n - 1) <= i < |before| ensures !PresentAt(before, i, id) {
          assert !PresentAt(h, i, id);
        }
      }
    } else if h != [] {
      AbsenceMeaning(h[..|h| - 1], id, 0);
    }
  }

  /** The recursion says what the specification says. */
  lemma {:induction false} ActiveIsSpecified<T>(h: History<T>, id: string, ticks: nat)
    ensures Active(h, id, ticks) <==> ShouldReport(h, id, ticks)
  {
    if h != [] {
      var n := |h| - 1;
      var before := h[..n];
      ActiveIsSpecified(before, id, ticks);
      assert h[..n + 1] == h;
      forall k: nat | k < n
        ensures Raised(before, id, k, ticks) <==> Raised(h, id, k, ticks)
        ensures Cleared(before, id, k, ticks) <==> Cleared(h, id, k, ticks)
      {
        assert before[..k + 1] == h[..k + 1];
        assert forall i: nat | i <= k :: PresentAt(before, i, id) <==> PresentAt(h, i, id);
      }
      ClearedNow(h, id, ticks);
      if Active(h, id, ticks) {
        ActiveShows(h, id, ticks);
      }
      if ShouldReport(h, id, ticks) {
        var j: nat :| j < |h| && Raised(h, id, j, ticks) && forall k: nat | j < k < |h| :: !Cleared(h, id, k, ticks);
        if j < n {
          assert Raised(before, id, j, ticks);
          assert !Cleared(h, id, n, ticks);
        }
      }
    }
  }

  lemma ClearedNow<T>(h: History<T>, id: string, ticks: nat)
    requires h != []
    ensures Cleared(h, id, |h| - 1, ticks) <==> Absence(h, id) >= Needed(ticks)
  {
    if Needed(ticks) <= |h| {
      AbsenceMeaning(h, id, Needed(ticks));
    } else {
      AbsenceMeaning(h, id, 0);
    }
  }

  lemma ActiveShows<T>(h: History<T>, id: string, ticks: nat)
    requires h != [] && Active(h, id, ticks)
    requires ShouldReport(h[..|h| - 1], id, ticks) <==> Active(h[..|h| - 1], id, ticks)
    requires forall k: nat | k < |h| - 1 ::
               && (Raised(h[..|h| - 1], id, k, ticks) <==> Raised(h, id, k, ticks))
               && (Cleared(h[..|h| - 1], id, k, ticks) <==> Cleared(h, id, k, ticks))
    ensures ShouldReport(h, id, ticks)
  {
    var n := |h| - 1;
    assert h[..n + 1] == h;
    ClearedNow(h, id, ticks);
    if Streak(h, id) >= Needed(ticks) {
      assert Raised(h, id, n, ticks);
    } else {
      var j: nat :| j < n && Raised(h[..n], id, j, ticks)
                    && forall k: nat | j < k < n :: !Cleared(h[..n], id, k, ticks);
      assert Raised(h, id, j, ticks);
      assert !Cleared(h, id, n, ticks);
    }
  }

  /** The refinement theorem: after any history the engine reports an alert exactly when its id has a
      completed run of presences not followed by a completed run of absences, and the alert is that
      id's latest instance. */
  lemma ReportsWhatTheHistorySays<T>(h: History<T>, a: Alert<T>, ticks: nat)
    ensures Reported(EngineStates(h, ticks), a) <==> ShouldReport(h, a.id, ticks) && Latest(h, a.id) == Some(a)
  {
    EngineRefinesHistory(h, a.id, ticks);
    ActiveIsSpecified(h, a.id, ticks);
  }

  /** No two candidates of one evaluation share an id. */
  ghost predicate DistinctIds<T>(h: History<T>) {
    forall k, i, j | 0 <= k < |h| && 0 <= i < j < |h[k]| :: h[k][i].id != h[k][j].id
  }

  lemma {:induction false} DistinctInstances<T>(candidates: seq<Alert<T>>, id: string)
    requires forall i, j | 0 <= i < j < |candidates| :: candidates[i].id != candidates[j].id
    ensures Instances(candidates, id) <= 1
  {
    if candidates != [] {
      var n := |candidates| - 1;
      DistinctInstances(candidates[..n], id);
      InstancesInIds(candidates[..n], id);
      if id in Ids(candidates[..n]) {
        var i :| 0 <= i < n && candidates[..n][i].id == id;
        assert candidates[i].id != candidates[n].id;
      }
    }
  }

  lemma DistinctPrefix<T>(h: History<T>)
    requires DistinctIds(h) && h != []
    ensures DistinctIds(h[..|h| - 1])
  {
  }

  /** With distinct ids a run is complete when the id was present at each of the last `Needed(ticks)`
      evaluations. */
  lemma {:induction false} DistinctStreak<T>(h: History<T>, id: string, n: nat)
    requires DistinctIds(h) && n <= |h|
    ensures Streak(h, id) >= n <==> forall i: nat | |h| - n <= i < |h| :: PresentAt(h, i, id)
    ensures Streak(h, id) <= |h|
  {
    if h != [] {
      var before, last := h[..|h| - 1], h[|h| - 1];
      DistinctPrefix(h);
      DistinctInstances(last, id);
      DistinctStreak(before, id, if n > 0 then n - 1 else 0);
      if n > 0 {
        if Streak(h, id) >= n {
          forall i: nat | |h| - n <= i < |h| ensures PresentAt(h, i, id) {
            assert i < |before| ==> PresentAt(before, i, id);
          }
        }
        if forall i: nat | |h| - n <= i < |h| :: PresentAt(h, i, id) {
          assert PresentAt(h, |h| - 1, id);
          forall i: nat | |before| - (n - 1) <= i < |before| ensures PresentAt(before, i, id) {
            assert PresentAt(h, i, id);
          }
        }
      }
    }
  }

  /** How often the reported state of an id changed. */
  function Transitions<T>(h: History<T>, id: string, ticks: nat): nat {
    if h == [] then 0
    else Transitions(h[..|h| - 1], id, ticks)
         + if Active(h, id, ticks) != Active(h[..|h| - 1], id, ticks) then 1 else 0
  }

  /** What is already spent on the next change. */
  function Progress<T>(h: History<T>, id: string, ticks: nat): nat {
    if Active(h, id, ticks) then Absence(h, id) else Streak(h, id)
  }

  /** Each evaluation spends an absence of the id or all its instances. */
  function Spent<T>(h: History<T>, id: string): nat {
    if h == [] then 0
    else Spent(h[..|h| - 1], id) + if Instances(h[|h| - 1], id) == 0 then 1 else Instances(h[|h| - 1], id)
  }

  /** The flap bound for any history: every change of state costs a whole debounce period of its own, in absences or
      in instances. */
  lemma {:induction false} ChangesAreSpent<T>(h: History<T>, id: string, ticks: nat)
    ensures Times(Transitions(h, id, ticks), Needed(ticks)) + Progress(h, id, ticks) <= Spent(h, id)
    ensures Transitions(h, id, ticks) <= Spent(h, id) / Needed(ticks)
  {
    if h != [] {
      var before := h[..|h| - 1];
      ChangesAreSpent(before, id, ticks);
      EngineRefinesHistory(before, id, ticks);
      EngineRefinesHistory(h, id, ticks);
      SlowStreak(before, id, ticks);
      TimesSuccessor(Transitions(before, id, ticks), Needed(ticks));
    }
    TimesQuotient(Transitions(h, id, ticks), Needed(ticks), Spent(h, id));
  }

  lemma {:induction false} DistinctSpent<T>(h: History<T>, id: string)
    requires DistinctIds(h)
    ensures Spent(h, id) == |h|
  {
    if h != [] {
      DistinctPrefix(h);
      DistinctInstances(h[|h| - 1], id);
      DistinctSpent(h[..|h| - 1], id);
    }
  }

  /** With distinct ids that is a whole period of evaluations. */
  lemma FlapBound<T>(h: History<T>, id: string, ticks: nat)
    requires DistinctIds(h)
    ensures Times(Transitions(h, id, ticks), Needed(ticks)) + Progress(h, id, ticks) <= |h|
    ensures Transitions(h, id, ticks) <= |h| / Needed(ticks)
  {
    ChangesAreSpent(h, id, ticks);
    DistinctSpent(h, id);
  }

  /** An id that is not reported has not completed its run. */
  lemma SlowStreak<T>(h: History<T>, id: string, ticks: nat)
    ensures !Active(h, id, ticks) ==> Streak(h, id) < Needed(ticks)
  {
  }

  /** Without distinct ids the flap bound fails: repeating one candidate raises it at once. */
  lemma RepeatedIdRaisesAtOnce<T>(a: Alert<T>)
    ensures Transitions([[a, a, a]], a.id, HYSTERESIS_TICKS) == 1 > 1 / HYSTERESIS_TICKS
  {
    var c := [a, a, a];
    assert c[..2] == [a, a] && c[..2][..1] == [a] && c[..2][..1][..0] == [];
    assert Instances(c[..2][..1], a.id) == 1;
    assert Instances(c[..2], a.id) == 2;
    var h: History<T> := [c];
    var none: History<T> := [];
    assert h[..0] == none;
    assert Streak(h, a.id) == 3;
  }

  /** Bounded memory: the engine keeps exactly the ids present within the last `Needed(ticks)`
      evaluations. */
  lemma KeepsOnlyRecentIds<T>(h: History<T>, id: string, ticks: nat)
    ensures id in EngineStates(h, ticks) <==> exists k: nat :: |h| - Needed(ticks) <= k < |h| && PresentAt(h, k, id)
  {
    EngineRefinesHistory(h, id, ticks);
    LatestMeaning(h, id);
    if Needed(ticks) <= |h| {
      AbsenceMeaning(h, id, Needed(ticks));
    } else {
      AbsenceMeaning(h, id, 0);
    }
  }

  lemma {:induction false} LatestMeaning<T>(h: History<T>, id: string)
    ensures Latest(h, id).Some? <==> exists k: nat :: k < |h| && PresentAt(h, k, id)
  {
    if h != [] {
      var n := |h| - 1;
      LatestMeaning(h[..n], id);
      LastInstanceExists(h[n], id);
      if Instances(h[n], id) > 0 {
        assert PresentAt(h, n, id);
      }
      if exists k: nat :: k < n && PresentAt(h[..n], k, id) {
        var k: nat :| k < n && PresentAt(h[..n], k, id);
        assert PresentAt(h, k, id);
      }
      if exists k: nat :: k < |h| && PresentAt(h, k, id) {
        var k: nat :| k < |h| && PresentAt(h, k, id);
        assert k < n ==> PresentAt(h[..n], k, id);
      }
    }
  }

  /** The latest instance of an id is the last candidate with that id in the last evaluation that has one. */
  lemma {:induction false} LatestIs<T>(h: History<T>, id: string)
    ensures Latest(h, id).Some? <==> exists k: nat, i: nat :: IsLatest(h, id, k, i)
    ensures forall k: nat, i: nat | IsLatest(h, id, k, i) :: Latest(h, id) == Some(h[k][i])
    decreases |h|
  {
    if h != [] {
      var n := |h| - 1;
      LatestIs(h[..n], id);
      LastInstanceIs(h[n], id);
      if Instances(h[n], id) > 0 {
        var i: nat :| IsLast(h[n], id, i);
        assert IsLatest(h, id, n, i);
        forall k: nat, j: nat | IsLatest(h, id, k, j) ensures Latest(h, id) == Some(h[k][j]) {
          assert PresentAt(h, n, id);
        }
      } else {
        LatestShorter(h, id);
        if Latest(h[..n], id).Some? {
          var k: nat, i: nat :| IsLatest(h[..n], id, k, i);
          assert IsLatest(h, id, k, i);
        }
        if exists k: nat, i: nat :: IsLatest(h, id, k, i) {
          var k: nat, i: nat :| IsLatest(h, id, k, i);
          assert IsLatest(h[..n], id, k, i);
        }
      }
    }
  }

  lemma LatestShorter<T>(h: History<T>, id: string)
    requires h != [] && Instances(h[|h| - 1], id) == 0
    ensures forall k: nat, i: nat :: IsLatest(h, id, k, i) <==> IsLatest(h[..|h| - 1], id, k, i)
  {
    forall k: nat, i: nat ensures IsLatest(h, id, k, i) <==> IsLatest(h[..|h| - 1], id, k, i) {
      LatestPrefix(h, id, k, i);
    }
  }

  ghost predicate IsLast<T>(candidates: seq<Alert<T>>, id: string, i: nat) {
    && i < |candidates| && candidates[i].id == id
    && forall j | i < j < |candidates| :: candidates[j].id != id
  }

  ghost predicate IsLatest<T>(h: History<T>, id: string, k: nat, i: nat) {
    k < |h| && IsLast(h[k], id, i) && forall l: nat | k < l < |h| :: !PresentAt(h, l, id)
  }

  lemma LatestPrefix<T>(h: History<T>, id: string, k: nat, i: nat)
    requires h != [] && Instances(h[|h| - 1], id) == 0
    ensures IsLatest(h, id, k, i) <==> IsLatest(h[..|h| - 1], id, k, i)
  {
    var n := |h| - 1;
    LastInstanceIs(h[n], id);
    if IsLatest(h[..n], id, k, i) {
      forall l: nat | k < l < |h| ensures !PresentAt(h, l, id) {
        assert l < n ==> !PresentAt(h[..n], l, id);
      }
    }
    if IsLatest(h, id, k, i) {
      forall l: nat | k < l < n ensures !PresentAt(h[..n], l, id) {
        assert !PresentAt(h, l, id);
      }
    }
  }

  lemma {:induction false} LastInstanceIs<T>(candidates: seq<Alert<T>>, id: string)
    ensures Instances(candidates, id) > 0 <==> exists i: nat :: IsLast(candidates, id, i)
    ensures forall i: nat | IsLast(candidates, id, i) :: LastInstance(candidates, id) == Some(candidates[i])
    decreases |candidates|
  {
    if candidates != [] {
      var n := |candidates| - 1;
      LastInstanceIs(candidates[..n], id);
      if candidates[n].id == id {
        assert IsLast(candidates, id, n);
      } else {
        forall i: nat ensures IsLast(candidates, id, i) <==> IsLast(candidates[..n], id, i) {
          LastPrefix(candidates, id, i);
        }
      }
    }
  }

  lemma LastPrefix<T>(candidates: seq<Alert<T>>, id: string, i: nat)
    requires candidates != [] && candidates[|candidates| - 1].id != id
    ensures IsLast(candidates, id, i) <==> IsLast(candidates[..|candidates| - 1], id, i)
  {
    var n := |candidates| - 1;
    if IsLast(candidates[..n], id, i) {
      forall j | i < j < |candidates| ensures candidates[j].id != id {
        assert j < n ==> candidates[..n][j].id != id;
      }
    }
  }
}
