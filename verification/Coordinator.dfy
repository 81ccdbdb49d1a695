/**
 * Modes, monitor, recovery queue, lifeboat and Wi-Fi events as one system over
 * whole multi-boot runs. Each callback, command and worker turn is one step.
 */
module Coordinator {
  import opened RollbackPolicy
  import opened HealthMonitor
  import ErrSource
  import Lifeboat

  datatype Mode = Startup | WaitControl | Normal | Recovery

  const QUEUE_DEPTH := 4

  datatype Sys = Sys(
    mode: Mode, authed: bool, mon: Mon, queue: nat,
    lb: Lifeboat.State, err: ErrSource.Snapshot, board: Board)

  // ---- specification of each callback ----

  function ModeSet(s: Sys, m: Mode, nvsOk: bool): Sys {
    if s.mode == m then s
    else
      match m
      case WaitControl => s.(mode := m, lb := Lifeboat.Step(s.lb, Lifeboat.Hide), mon := ARMED)
      case Normal => s.(mode := m, lb := Lifeboat.Step(s.lb, Lifeboat.Hide),
                        board := s.board.(flag := FlagSet(s.board.flag, false, nvsOk)))
      case _ => s.(mode := m)
  }

  function RecoveryEnqueued(s: Sys): Sys {
    s.(queue := if s.queue < QUEUE_DEPTH then s.queue + 1 else s.queue)
  }

  function WifiStateSeen(s: Sys, up: bool): Sys {
    if up then s
    else if s.mode == Normal then ModeSet(s.(authed := false), WaitControl, true)
    else s.(authed := false)
  }

  function WifiErrorSeen(s: Sys, code: int, rb: RollbackIo): (Sys, Reboot) {
    var (mon, verdict) := Reported(s.mon, code != ErrSource.ES_NONE);
    var s1 := s.(mon := mon);
    match verdict
    case Nothing => (s1, Stay)
    case EnterRecovery => (RecoveryEnqueued(s1), Stay)
    case ConsiderRollback =>
      if Eligible(s.board) && !PostRollback(s.board) then
        var (board, how) := TryRollback(s.board, rb);
        (s1.(board := board), how)
      else (s1, Stay)
  }

  function ControlProven(s: Sys, source: string, markOk: bool, nvsOk: bool): Sys {
    if !(source == "TCP" && s.authed) then s
    else
      var board := if Eligible(s.board) && markOk then SetImg(s.board, s.board.running, Valid) else s.board;
      ModeSet(s.(board := board, mon := Latched(s.mon)), Normal, nvsOk)
  }

  /** AUTH accepted over TCP. */
  function TcpAuthed(s: Sys, markOk: bool, nvsOk: bool): Sys {
    ControlProven(s.(authed := true), "TCP", markOk, nvsOk)
  }

  function WorkerTurned(s: Sys, queueOk: bool, timerOk: bool): Sys {
    if s.queue == 0 then s
    else
      var s1 := ModeSet(s.(queue := s.queue - 1), Recovery, true);
      s1.(lb := Lifeboat.Step(s1.lb, Lifeboat.Enter(queueOk, timerOk)))
  }

  function IpGained(s: Sys, rb: RollbackIo): (Sys, Reboot) {
    var s1 := WifiStateSeen(s, true);
    WifiErrorSeen(s1.(err := ErrSource.SetString(s1.err, "")), ErrSource.ES_NONE, rb)
  }

  predicate SpecificFailure(code: int) {
    || code == ErrSource.ES_NO_AP || code == ErrSource.ES_AUTH_FAIL || code == ErrSource.ES_ASSOC_EXPIRE
    || code == ErrSource.ES_4WAY_TIMEOUT || code == ErrSource.ES_BEACON_TO
  }

  function IpLost(s: Sys, rb: RollbackIo): (Sys, Reboot) {
    var s1 := WifiStateSeen(s, false);
    if SpecificFailure(s1.err.code) then (s1, Stay)
    else WifiErrorSeen(s1.(err := ErrSource.SetEnum(s1.err, ErrSource.ES_IP_LOST)), ErrSource.ES_IP_LOST, rb)
  }

  datatype Reason = AuthExpired | AuthFailed | NoApFound | HandshakeTimeout | AssocExpired | BeaconTimeout | OtherReason

  function CodeOf(r: Reason): int {
    match r
    case AuthExpired => ErrSource.ES_AUTH_EXPIRE
    case AuthFailed => ErrSource.ES_AUTH_FAIL
    case NoApFound => ErrSource.ES_NO_AP
    case HandshakeTimeout => ErrSource.ES_4WAY_TIMEOUT
    case AssocExpired => ErrSource.ES_ASSOC_EXPIRE
    case BeaconTimeout => ErrSource.ES_BEACON_TO
    case OtherReason => ErrSource.ES_DISCONNECTED
  }

  datatype WifiEvent = StaStart(haveSsid: bool) | StaDisconnected(reason: Reason) | StaStop | OtherWifi

  function WifiSeen(s: Sys, e: WifiEvent, rb: RollbackIo): (Sys, Reboot) {
    match e
    case StaStart(haveSsid) =>
      if haveSsid then (s.(err := ErrSource.SetString(s.err, "SCANNING")), Stay)
      else WifiErrorSeen(s.(err := ErrSource.SetEnum(s.err, ErrSource.ES_NO_CREDS)), ErrSource.ES_NO_CREDS, rb)
    case StaDisconnected(reason) =>
      var s1 := WifiStateSeen(s, false);
      WifiErrorSeen(s1.(err := ErrSource.SetEnum(s1.err, CodeOf(reason))), CodeOf(reason), rb)
    case StaStop => (WifiStateSeen(s, false), Stay)
    case OtherWifi => (s, Stay)
  }

  /** app_main and syscoord_init on a board that has just booted. */
  function BootUp(b: Board): Sys {
    ModeSet(Sys(Startup, false, ARMED, 0, Lifeboat.BOOT, ErrSource.Snapshot("NONE", ErrSource.ES_NONE), b),
            WaitControl, true)
  }

  // ---- the code ----

  class Syscoord {
    var mode: Mode
    var tcpAuthed: bool
    var sysQ: nat
    const monitor: Monitor
    const lifeboat: Lifeboat.Lifeboat
    const errsrc: ErrSource.ErrSource
    const otadata: OtaData
    const bootflag: BootFlag

    function State(): Sys
      reads this, monitor, lifeboat, errsrc, otadata, bootflag
    {
      Sys(mode, tcpAuthed, monitor.State(), sysQ, lifeboat.Now(), errsrc.State(), BoardOf(otadata, bootflag))
    }

    /** app_main: drop a stale flag on the factory image, then bring the coordinator up. */
    constructor (otadata: OtaData, bootflag: BootFlag, nvsOk: bool)
      modifies bootflag
      ensures this.otadata == otadata && this.bootflag == bootflag
      ensures fresh(monitor) && fresh(lifeboat) && fresh(errsrc)
      ensures State() == BootUp(old(Booted(BoardOf(otadata, bootflag),
                Boot(otadata.running, otadata.ota0, otadata.ota1), nvsOk)))
    {
      this.otadata := otadata;
      this.bootflag := bootflag;
      mode, tcpAuthed, sysQ := Startup, false, 0;
      monitor := new Monitor();
      lifeboat := new Lifeboat.Lifeboat();
      errsrc := new ErrSource.ErrSource();
      new;
      if otadata.running == Factory {
        bootflag.SetPostRollback(false, nvsOk);
      }
      SetMode(WaitControl, true);
    }

    method SetMode(m: Mode, nvsOk: bool)
      modifies this, monitor, lifeboat, bootflag
      ensures State() == ModeSet(old(State()), m, nvsOk)
    {
      var prev := mode;
      mode := m;
      if prev == m {
        return;
      }
      match m {
        case Startup =>
        case WaitControl =>
          lifeboat.BleLifeboatSet(false);
          lifeboat.BleFallbackStop();
          monitor.Start();
        case Normal =>
          lifeboat.BleLifeboatSet(false);
          lifeboat.BleFallbackStop();
          bootflag.SetPostRollback(false, nvsOk);
        case Recovery =>
      }
    }

    method EnqueueRecovery()
      modifies `sysQ
      ensures sysQ == if old(sysQ) < QUEUE_DEPTH then old(sysQ) + 1 else old(sysQ)
    {
      if sysQ < QUEUE_DEPTH {
        sysQ := sysQ + 1;
      }
    }

    method OnWifiState(up: bool)
      modifies this, monitor, lifeboat, bootflag
      ensures State() == WifiStateSeen(old(State()), up)
    {
      if !up {
        tcpAuthed := false;
        if mode == Normal {
          SetMode(WaitControl, true);
        }
      }
    }

    /** monitor_on_wifi_error with its rollback and timeout callback. */
    method OnWifiError(code: int, rb: RollbackIo) returns (how: Reboot)
      modifies `sysQ, monitor, otadata, bootflag
      ensures (State(), how) == WifiErrorSeen(old(State()), code, rb)
    {
      how := Stay;
      var verdict := monitor.OnWifiError(code);
      match verdict {
        case Nothing =>
        case EnterRecovery =>
          EnqueueRecovery();
        case ConsiderRollback =>
          var eligible := IsRollbackEligible(otadata, bootflag);
          var post := bootflag.IsPostRollback();
          if eligible && !post {
            how := TryRollbackNow(otadata, bootflag, rb);
          }
      }
    }

    method MarkTcpAuthed()
      modifies `tcpAuthed
      ensures State() == old(State()).(authed := true)
    {
      tcpAuthed := true;
    }

    method ControlPathOk(source: string, markOk: bool, nvsOk: bool)
      modifies this, monitor, lifeboat, otadata, bootflag
      ensures State() == ControlProven(old(State()), source, markOk, nvsOk)
    {
      if !(source == "TCP" && tcpAuthed) {
        return;
      }
      var st := otadata.GetState(otadata.running);
      if st == New || st == PendingVerify {
        if markOk {
          otadata.SetImage(otadata.running, Valid);
        }
      }
      monitor.ControlOk();
      SetMode(Normal, nvsOk);
    }

    /** What an accepted AUTH over TCP does to the system. */
    method AuthOverTcp(markOk: bool, nvsOk: bool)
      modifies this, monitor, lifeboat, otadata, bootflag
      ensures State() == TcpAuthed(old(State()), markOk, nvsOk)
    {
      MarkTcpAuthed();
      ControlPathOk("TCP", markOk, nvsOk);
    }

    /** One turn of the worker loop; it blocks while the queue is empty. */
    method WorkerTurn(queueOk: bool, timerOk: bool)
      modifies this, monitor, lifeboat, bootflag
      ensures State() == WorkerTurned(old(State()), queueOk, timerOk)
    {
      if sysQ == 0 {
        return;
      }
      sysQ := sysQ - 1;
      SetMode(Recovery, true);
      lifeboat.BleFallbackInit(queueOk, timerOk);
      lifeboat.BleLifeboatSet(true);
    }

    method GotIp(rb: RollbackIo) returns (how: Reboot)
      modifies this, monitor, lifeboat, errsrc, otadata, bootflag
      ensures (State(), how) == IpGained(old(State()), rb)
    {
      OnWifiState(true);
      errsrc.Set("");
      how := OnWifiError(ErrSource.ES_NONE, rb);
    }

    method GotIpLost(rb: RollbackIo) returns (how: Reboot)
      modifies this, monitor, lifeboat, errsrc, otadata, bootflag
      ensures (State(), how) == IpLost(old(State()), rb)
    {
      OnWifiState(false);
      how := Stay;
      if !SpecificFailure(errsrc.last) {
        errsrc.SetCode(ErrSource.ES_IP_LOST);
        how := OnWifiError(ErrSource.ES_IP_LOST, rb);
      }
    }

    method WifiEvt(e: WifiEvent, rb: RollbackIo) returns (how: Reboot)
      modifies this, monitor, lifeboat, errsrc, otadata, bootflag
      ensures (State(), how) == WifiSeen(old(State()), e, rb)
    {
      how := Stay;
      match e {
        case StaStart(haveSsid) =>
          if haveSsid {
            errsrc.Set("SCANNING");
          } else {
            errsrc.SetCode(ErrSource.ES_NO_CREDS);
            how := OnWifiError(ErrSource.ES_NO_CREDS, rb);
          }
        case StaDisconnected(reason) =>
          OnWifiState(false);
          var err := CodeOf(reason);
          errsrc.SetCode(err);
          how := OnWifiError(err, rb);
        case StaStop =>
          OnWifiState(false);
        case OtherWifi =>
      }
    }
  }
}
