/** The connectivity monitor: a failure streak and a latch, armed by the coordinator. */
module HealthMonitor {
  import ErrSource

  datatype Mon = Mon(done: bool, streak: int)

  /** What a failure report asks the rest of the system to do. */
  datatype Verdict = Nothing | ConsiderRollback | EnterRecovery

  const STREAK_MAX := 0x7fff

  const ARMED := Mon(false, 0)

  function Latched(m: Mon): Mon {
    if m.done then m else Mon(true, 0)
  }

  function Reported(m: Mon, failure: bool): (Mon, Verdict) {
    if m.done then (m, Nothing)
    else if !failure then (Mon(false, 0), Nothing)
    else
      var streak := if m.streak < STREAK_MAX then m.streak + 1 else m.streak;
      if streak == 1 then (Mon(false, 1), ConsiderRollback)
      else if streak >= 2 then (Mon(true, streak), EnterRecovery)
      else (Mon(false, streak), Nothing)
  }

  class Monitor {
    var done: bool
    var streak: int

    constructor ()
      ensures State() == ARMED
    {
      done, streak := false, 0;
    }

    function State(): Mon
      reads this
    {
      Mon(done, streak)
    }

    method Start()
      modifies this
      ensures State() == ARMED
    {
      done := false;
      streak := 0;
    }

    method ControlOk()
      modifies this
      ensures State() == Latched(old(State()))
    {
      if done {
        return;
      }
      done := true;
      streak := 0;
    }

    method OnWifiError(e: int) returns (v: Verdict)
      modifies this
      ensures (State(), v) == Reported(old(State()), e != ErrSource.ES_NONE)
    {
      if done {
        return Nothing;
      }
      if e == ErrSource.ES_NONE {
        streak := 0;
        return Nothing;
      }
      if streak < STREAK_MAX {
        streak := streak + 1;
      }
      if streak == 1 {
        return ConsiderRollback;
      }
      if streak >= 2 {
        done := true;
        return EnterRecovery;
      }
      v := Nothing;
    }
  }

  // ---- the history since the last arming ----

  datatype Event = Report(failure: bool) | Control

  function Step(m: Mon, e: Event): (Mon, Verdict) {
    match e
    case Report(failure) => Reported(m, failure)
    case Control => (Latched(m), Nothing)
  }

  /** The monitor after the events h, armed before the first. */
  function After(h: seq<Event>): Mon {
    if h == [] then ARMED else Step(After(h[..|h| - 1]), h[|h| - 1]).0
  }

  /** What event i of the history made it ask for. */
  function VerdictAt(h: seq<Event>, i: nat): Verdict
    requires i < |h|
  {
    Step(After(h[..i]), h[i]).1
  }

  // The reference, on the history alone.

  predicate Fails(h: seq<Event>, i: int)
    requires i < |h|
  {
    0 <= i && h[i] == Report(true)
  }

  /** Two failure reports in a row, nothing between them. */
  predicate TwoInARow(h: seq<Event>, i: int)
    requires i < |h|
  {
    Fails(h, i) && Fails(h, i - 1)
  }

  /** No control-ok and no two failures in a row among the first n events. */
  predicate Unlatched(h: seq<Event>, n: nat)
    requires n <= |h|
  {
    forall j :: 0 <= j < n ==> h[j] != Control && !TwoInARow(h, j)
  }

  lemma {:induction false} StateIsHistory(h: seq<Event>, n: nat)
    requires n <= |h|
    ensures After(h[..n]).done <==> !Unlatched(h, n)
    ensures Unlatched(h, n) ==> After(h[..n]).streak == if Fails(h, n - 1) then 1 else 0
    ensures 0 <= After(h[..n]).streak <= 2
    decreases n
  {
    if n > 0 {
      assert h[..n][..n - 1] == h[..n - 1];
      StateIsHistory(h, n - 1);
      assert Unlatched(h, n) <==> Unlatched(h, n - 1) && h[n - 1] != Control && !TwoInARow(h, n - 1);
    }
  }

  /**
   * The monitor is its history: recovery is requested at the first second
   * failure in a row before any control-ok, a rollback is considered at exactly
   * the first failures in a row until then, and nothing else ever happens.
   */
  lemma VerdictIsHistory(h: seq<Event>, i: nat)
    requires i < |h|
    ensures VerdictAt(h, i) == EnterRecovery <==> Unlatched(h, i) && TwoInARow(h, i)
    ensures VerdictAt(h, i) == ConsiderRollback <==> Unlatched(h, i) && Fails(h, i) && !Fails(h, i - 1)
  {
    StateIsHistory(h, i);
  }

  /** The event that latches it fixes the streak for good: at 0 if it is a control-ok, at 2 otherwise. */
  lemma {:induction false} LatchIsFinal(h: seq<Event>, i: nat, n: nat)
    requires i < n <= |h| && Unlatched(h, i) && !Unlatched(h, i + 1)
    ensures After(h[..n]) == Mon(true, if h[i] == Control then 0 else 2)
    decreases n
  {
    assert h[..n][..n - 1] == h[..n - 1];
    if i == n - 1 {
      StateIsHistory(h, i);
      assert Unlatched(h, n) <==> Unlatched(h, i) && h[i] != Control && !TwoInARow(h, i);
    } else {
      LatchIsFinal(h, i, n - 1);
    }
  }

  /** The timeout callback fires at most once per arming. */
  lemma RecoveryRequestedAtMostOnce(h: seq<Event>, i: nat, j: nat)
    requires i < j < |h|
    requires VerdictAt(h, i) == EnterRecovery
    ensures VerdictAt(h, j) == Nothing
  {
    VerdictIsHistory(h, i);
    VerdictIsHistory(h, j);
    assert TwoInARow(h, i);
  }

  /** An unlatched streak is at most one, so the saturating branch is never taken. */
  lemma StreakNeverSaturates(h: seq<Event>)
    ensures After(h).streak < STREAK_MAX
    ensures !After(h).done ==> After(h).streak <= 1
  {
    assert h[..|h|] == h;
    StateIsHistory(h, |h|);
  }
}
