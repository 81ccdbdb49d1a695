/** What the coordinator makes of each event: reports, failures in a row, rollback, recovery. */
module Escalation {
  import opened RollbackPolicy
  import HealthMonitor
  import opened Coordinator
  import opened SystemRuns
  import ErrSource
  import Lifeboat

  // ---- what is reported as the error source ----

  function TextOf(r: Reason): string {
    match r
    case AuthExpired => "AUTH_EXPIRE"
    case AuthFailed => "AUTH_FAIL"
    case NoApFound => "NO_AP"
    case HandshakeTimeout => "4WAY_TIMEOUT"
    case AssocExpired => "ASSOC_EXPIRE"
    case BeaconTimeout => "BEACON_TO"
    case OtherReason => "DISCONNECTED"
  }

  lemma NoOneElseReports(s: Sys, up: bool, code: int, rb: RollbackIo)
    ensures WifiStateSeen(s, up).err == s.err && WifiErrorSeen(s, code, rb).0.err == s.err
  {
    hide Lifeboat.Step;
  }

  /** Every Wi-Fi event leaves the text of its own reason, whatever was reported before. */
  lemma WifiEventIsReported(s: Sys, e: WifiEvent, rb: RollbackIo)
    ensures e.StaDisconnected? ==> WifiSeen(s, e, rb).0.err.err == TextOf(e.reason)
    ensures e.StaStart? ==> WifiSeen(s, e, rb).0.err.err == if e.haveSsid then "SCANNING" else "NO_CREDS"
    ensures e.StaStop? || e.OtherWifi? ==> WifiSeen(s, e, rb).0.err == s.err
  {
    ErrSource.CanonicalStrings();
    hide WifiStateSeen, WifiErrorSeen, ErrSource.SetString, ErrSource.SetEnum, ErrSource.ToString;
    var s1 := WifiStateSeen(s, false);
    NoOneElseReports(s, false, 0, rb);
    match e
    case StaStart(haveSsid) =>
      ErrSource.ShortStringIsStored(s.err, "SCANNING");
      ErrSource.CodeIsStored(s.err, ErrSource.ES_NO_CREDS);
      NoOneElseReports(s.(err := ErrSource.SetEnum(s.err, ErrSource.ES_NO_CREDS)), true, ErrSource.ES_NO_CREDS, rb);
    case StaDisconnected(reason) =>
      ErrSource.CodeIsStored(s1.err, CodeOf(reason));
      NoOneElseReports(s1.(err := ErrSource.SetEnum(s1.err, CodeOf(reason))), true, CodeOf(reason), rb);
    case StaStop =>
    case OtherWifi =>
  }

  /** A lost address is reported unless one of five more specific failures is; a gained one clears the report. */
  lemma IpIsReported(s: Sys, rb: RollbackIo)
    ensures IpGained(s, rb).0.err.err == "NONE"
    ensures IpLost(s, rb).0.err.err == if s.err.code in {5, 4, 7, 6, 8} then s.err.err else "IP_LOST"
  {
    ErrSource.CanonicalStrings();
    hide WifiStateSeen, WifiErrorSeen, ErrSource.SetString, ErrSource.SetEnum, ErrSource.ToString;
    var up, down := WifiStateSeen(s, true), WifiStateSeen(s, false);
    NoOneElseReports(s, true, 0, rb);
    NoOneElseReports(s, false, 0, rb);
    ErrSource.ShortStringIsStored(up.err, "");
    ErrSource.CodeIsStored(down.err, ErrSource.ES_IP_LOST);
    NoOneElseReports(up.(err := ErrSource.SetString(up.err, "")), true, ErrSource.ES_NONE, rb);
    NoOneElseReports(down.(err := ErrSource.SetEnum(down.err, ErrSource.ES_IP_LOST)), true, ErrSource.ES_IP_LOST, rb);
  }

  // ---- what the monitor hears ----

  datatype Heard = Failure | Cleared | ControlOk | Silence

  /** What an event tells the monitor. */
  function Tells(w: World, e: Event): Heard {
    match e.act
    case IpUp => Cleared
    case IpDown => if w.sys.err.code in {5, 4, 7, 6, 8} then Silence else Failure
    case Wifi(wifi) => if wifi.StaDisconnected? || wifi == StaStart(false) then Failure else Silence
    case TcpAuth(_, _) => ControlOk
    case ControlClaim(_, _, _) => if Promotes(w, e) then ControlOk else Silence
    case BleStart(begun) => if w.sys.mode == Recovery && !w.xfer && begun then ControlOk else Silence
    case _ => Silence
  }

  /** Losing Wi-Fi. */
  predicate WifiDown(e: Event) {
    e.act.IpDown? || (e.act.Wifi? && (e.act.e.StaDisconnected? || e.act.e.StaStop?))
  }

  /** Leaving NORMAL arms the monitor before it hears anything. */
  function Listening(w: World, e: Event): HealthMonitor.Mon {
    if w.sys.mode == Normal && WifiDown(e) then HealthMonitor.ARMED else w.sys.mon
  }

  function Hears(m: HealthMonitor.Mon, h: Heard): (HealthMonitor.Mon, HealthMonitor.Verdict) {
    match h
    case Failure => HealthMonitor.Step(m, HealthMonitor.Report(true))
    case Cleared => HealthMonitor.Step(m, HealthMonitor.Report(false))
    case ControlOk => HealthMonitor.Step(m, HealthMonitor.Control)
    case Silence => (m, HealthMonitor.Nothing)
  }

  /** A rollback is attempted at this step. */
  predicate RollsBack(w: World, e: Event) {
    && Hears(Listening(w, e), Tells(w, e)).1 == HealthMonitor.ConsiderRollback
    && Eligible(w.sys.board) && !PostRollback(w.sys.board)
    && (e.rb.officialOk || !(w.sys.board.parts <= {w.sys.board.running}))
  }

  /** A request for recovery is made at this step. */
  predicate AsksForRecovery(w: World, e: Event) {
    e.act.NoControl? || Hears(Listening(w, e), Tells(w, e)).1 == HealthMonitor.EnterRecovery
  }

  lemma WifiStateEffect(s: Sys, up: bool)
    ensures var s' := WifiStateSeen(s, up);
            && s'.queue == s.queue && s'.board == s.board && s'.err == s.err
            && s'.authed == (s.authed && up)
            && s'.mode == (if !up && s.mode == Normal then WaitControl else s.mode)
            && s'.mon == (if !up && s.mode == Normal then HealthMonitor.ARMED else s.mon)
  {
    hide Lifeboat.Step;
  }

  lemma WifiErrorEffect(s: Sys, code: int, rb: RollbackIo)
    ensures var (s', how) := WifiErrorSeen(s, code, rb);
            var (mon, verdict) := HealthMonitor.Step(s.mon, HealthMonitor.Report(code != 0));
            && s'.mon == mon && s'.mode == s.mode && s'.authed == s.authed && s'.err == s.err
            && s'.queue == (if verdict == HealthMonitor.EnterRecovery && s.queue < 4 then s.queue + 1 else s.queue)
            && (how != Stay <==> verdict == HealthMonitor.ConsiderRollback && Eligible(s.board)
                                 && !PostRollback(s.board)
                                 && (rb.officialOk || !(s.board.parts <= {s.board.running})))
            && (how == Stay || how == Official || how.Manual?)
  {
    if s.board.running != Factory {
      RollbackEffect(s.board, rb);
    }
  }

  /**
   * What an event does to the monitor, the recovery queue and the proof of
   * control, and when it reboots: read off what the monitor hears.
   */
  predicate Effect(w: World, e: Event) {
    var (w', how) := Handle(w, e);
    && w'.sys.mon == Hears(Listening(w, e), Tells(w, e)).0
    && w'.sys.queue == (if AsksForRecovery(w, e) && w.sys.queue < 4 then w.sys.queue + 1
                        else if e.act.Worker? && w.sys.queue > 0 then w.sys.queue - 1
                        else w.sys.queue)
    && w'.sys.authed == (e.act.TcpAuth? || (w.sys.authed && !WifiDown(e)))
    && (MonitorRollback(w, e) <==> RollsBack(w, e))
    && (how == Plain <==> e.act.OtaDone? || e.act.Reset?)
  }

  lemma IpEffect(w: World, e: Event)
    requires e.act.IpUp? || e.act.IpDown?
    ensures Effect(w, e)
  {
    hide Lifeboat.Step, WifiStateSeen, WifiErrorSeen, Eligible, PostRollback;
    var up, down := WifiStateSeen(w.sys, true), WifiStateSeen(w.sys, false);
    WifiStateEffect(w.sys, true);
    WifiStateEffect(w.sys, false);
    WifiErrorEffect(up.(err := ErrSource.SetString(up.err, "")), ErrSource.ES_NONE, e.rb);
    WifiErrorEffect(down.(err := ErrSource.SetEnum(down.err, ErrSource.ES_IP_LOST)), ErrSource.ES_IP_LOST, e.rb);
  }

  lemma WifiEffect(w: World, e: Event)
    requires e.act.Wifi?
    ensures Effect(w, e)
  {
    hide Lifeboat.Step, WifiStateSeen, WifiErrorSeen, Eligible, PostRollback;
    var down, wifi := WifiStateSeen(w.sys, false), e.act.e;
    WifiStateEffect(w.sys, false);
    if wifi.StaStart? {
      WifiErrorEffect(w.sys.(err := ErrSource.SetEnum(w.sys.err, ErrSource.ES_NO_CREDS)), ErrSource.ES_NO_CREDS, e.rb);
    } else if wifi.StaDisconnected? {
      var code := CodeOf(wifi.reason);
      WifiErrorEffect(down.(err := ErrSource.SetEnum(down.err, code)), code, e.rb);
    }
  }

  lemma EventEffect(w: World, e: Event)
    ensures Effect(w, e)
  {
    if e.act.IpUp? || e.act.IpDown? {
      IpEffect(w, e);
    } else if e.act.Wifi? {
      WifiEffect(w, e);
    } else {
      hide Lifeboat.Step, Eligible, PostRollback;
    }
  }

  /** From a clear flag and an unverified image, the first failure of any kind rolls back if there is a way to. */
  lemma FirstFailureRollsBack(w: World, e: Event)
    requires Core(w) && RollbackDue(w) && Tells(w, e) == Failure && (w.sys.mode == Normal ==> WifiDown(e))
    ensures MonitorRollback(w, e) <==> e.rb.officialOk || !(w.sys.board.parts <= {w.sys.board.running})
  {
    hide Handle;
    EventEffect(w, e);
  }

  // ---- two failures in a row ----

  /** Nothing in the steps from i up to n tells the monitor anything or reboots. */
  predicate QuietFrom(w: World, evs: seq<Event>, i: nat, n: nat)
    requires n <= |evs|
  {
    forall k :: i <= k < n ==>
      var s := Run(w, evs[..k]);
      Tells(s, evs[k]) == Silence && Handle(s, evs[k]).1 == Stay
  }

  lemma QuietStep(w: World, e: Event)
    requires Core(w) && w.sys.mode != Normal && Tells(w, e) == Silence && Handle(w, e).1 == Stay
    ensures Next(w, e).sys.mon == w.sys.mon && Next(w, e).sys.mode != Normal
  {
    EventEffect(w, e);
    OrdinaryStep(w, e);
    hide Handle;
  }

  lemma {:induction false} QuietRun(w: World, evs: seq<Event>, n: nat)
    requires 1 <= n <= |evs| && Core(w) && Feasible(w, evs) && QuietFrom(w, evs, 1, n)
    requires Run(w, evs[..1]).sys.mode != Normal
    ensures Run(w, evs[..n]).sys.mon == Run(w, evs[..1]).sys.mon
    ensures Run(w, evs[..n]).sys.mode != Normal && Core(Run(w, evs[..n]))
    decreases n
  {
    FeasiblePrefix(w, evs, n);
    RunCore(w, evs[..n]);
    if n > 1 {
      var m := n - 1;
      assert evs[..n][..m] == evs[..m] && evs[..n][m] == evs[m];
      QuietRun(w, evs, m);
      assert Run(w, evs[..n]) == Next(Run(w, evs[..m]), evs[m]);
      hide Next, Handle, Core, Tells, Run;
      QuietStep(Run(w, evs[..m]), evs[m]);
    }
  }

  /**
   * Two failures in a row ask for recovery: from an unlatched monitor, with nothing
   * heard between two failure reports and no reboot, a request is in the queue
   * after the second of them, or already after the first if that was a second one.
   */
  lemma TwoFailuresAskForRecovery(w: World, evs: seq<Event>)
    requires Core(w) && !w.sys.mon.done && 0 <= w.sys.mon.streak && Feasible(w, evs) && |evs| >= 2
    requires var n := |evs| - 1;
             && Tells(w, evs[0]) == Failure && Handle(w, evs[0]).1 == Stay
             && QuietFrom(w, evs, 1, n)
             && Tells(Run(w, evs[..n]), evs[n]) == Failure && Handle(Run(w, evs[..n]), evs[n]).1 == Stay
    ensures Run(w, if w.sys.mon.streak == 0 then evs else evs[..1]).sys.queue > 0
  {
    var n := |evs| - 1;
    assert evs[..1][..0] == [] && evs[..1][0] == evs[0];
    assert Run(w, evs[..1]) == Next(Run(w, []), evs[0]) == Next(w, evs[0]);
    assert Run(w, evs) == Next(Run(w, evs[..n]), evs[n]);
    EventEffect(w, evs[0]);
    FailureIsOrdinary(w, evs[0]);
    hide Handle, Core, Run, Feasible;
    if w.sys.mon.streak == 0 {
      QuietRun(w, evs, n);
      EventEffect(Run(w, evs[..n]), evs[n]);
    }
  }

  lemma FailureIsOrdinary(w: World, e: Event)
    requires Core(w) && Tells(w, e) == Failure && Handle(w, e).1 == Stay && w.sys.mode != Normal
    ensures Next(w, e).sys.mode != Normal && Next(w, e) == Handle(w, e).0
  {
    OrdinaryStep(w, e);
    hide Handle;
  }

  /** A queued request enters recovery at the worker's next turn and turns the lifeboat on. */
  lemma WorkerEntersRecovery(w: World, e: Event)
    requires e.act.Worker? && w.sys.queue > 0
    ensures var w' := Next(w, e);
            && w'.sys.mode == Recovery && w'.sys.lb.lifeboat && w'.sys.lb.stackReady
            && w'.sys.queue == w.sys.queue - 1 && w'.sys.board == w.sys.board
  {
    hide Lifeboat.Step;
    Lifeboat.EnterTurnsOn(w.sys.lb, e.act.queueOk, e.act.timerOk);
  }

  /** The whole way: two failures in a row and a worker turn make recovery, with the lifeboat on. */
  lemma TwoFailuresReachRecovery(w: World, evs: seq<Event>, e: Event)
    requires Core(w) && !w.sys.mon.done && w.sys.mon.streak == 0 && Feasible(w, evs) && |evs| >= 2
    requires var n := |evs| - 1;
             && Tells(w, evs[0]) == Failure && Handle(w, evs[0]).1 == Stay
             && QuietFrom(w, evs, 1, n)
             && Tells(Run(w, evs[..n]), evs[n]) == Failure && Handle(Run(w, evs[..n]), evs[n]).1 == Stay
    requires e.act.Worker?
    ensures Next(Run(w, evs), e).sys.mode == Recovery && Next(Run(w, evs), e).sys.lb.lifeboat
  {
    TwoFailuresAskForRecovery(w, evs);
    hide Run, Next, Core, Feasible, QuietFrom;
    WorkerEntersRecovery(Run(w, evs), e);
  }

  // ---- entering and leaving modes ----

  /** Whenever WAIT_CONTROL or NORMAL is entered the lifeboat is off, its radio, link and watchdog at rest. */
  lemma EntryHides(w: World, e: Event)
    requires Core(w) && Handle(w, e).1 == Stay
    requires Next(w, e).sys.mode != w.sys.mode && Next(w, e).sys.mode != Recovery
    ensures Lifeboat.AtRest(Next(w, e).sys.lb)
  {
    hide Lifeboat.Step, Lifeboat.AtRest, ErrSource.SetEnum, ErrSource.SetString, WifiErrorSeen, Eligible, PostRollback;
    Lifeboat.HideRests(w.sys.lb);
    var up, down := WifiStateSeen(w.sys, true), WifiStateSeen(w.sys, false);
    match e.act
    case IpUp => ErrorKeepsMode(up.(err := ErrSource.SetString(up.err, "")), ErrSource.ES_NONE, e.rb);
    case IpDown =>
      ErrorKeepsMode(down.(err := ErrSource.SetEnum(down.err, ErrSource.ES_IP_LOST)), ErrSource.ES_IP_LOST, e.rb);
    case Wifi(wifi) =>
      if wifi.StaStart? {
        ErrorKeepsMode(w.sys.(err := ErrSource.SetEnum(w.sys.err, ErrSource.ES_NO_CREDS)), ErrSource.ES_NO_CREDS, e.rb);
      } else if wifi.StaDisconnected? {
        var code := CodeOf(wifi.reason);
        ErrorKeepsMode(down.(err := ErrSource.SetEnum(down.err, code)), code, e.rb);
      }
    case TcpAuth(_, _) =>
    case ControlClaim(_, _, _) =>
    case NoControl =>
    case Worker(_, _) =>
    case Ble(_) =>
    case BleStart(_) =>
    case BleOver =>
    case OtaDone(_) =>
    case Reset =>
  }

  lemma ErrorKeepsMode(s: Sys, code: int, rb: RollbackIo)
    ensures WifiErrorSeen(s, code, rb).0.mode == s.mode && WifiErrorSeen(s, code, rb).0.lb == s.lb
  {
  }

  /** What every boot starts from. */
  lemma BootStartsClean(b: Board)
    ensures var s := BootUp(b);
            && s.mode == WaitControl && !s.authed && s.mon == HealthMonitor.ARMED && s.queue == 0
            && s.err == ErrSource.Snapshot("NONE", 0) && s.board == b
            && Lifeboat.AtRest(s.lb) && s.lb.kicks == 0 && s.lb.starts == 0
  {
    hide Lifeboat.Step, Lifeboat.AtRest;
    Lifeboat.HideRests(Lifeboat.BOOT);
  }
}
