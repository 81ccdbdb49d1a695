/** Whole runs of the device, reboots included, and what holds along every one of them. */
module SystemRuns {
  import opened RollbackPolicy
  import opened HealthMonitor
  import opened Coordinator
  import ErrSource
  import Lifeboat

  /** xfer: a BLE transfer is active. */
  datatype World = World(sys: Sys, xfer: bool)

  datatype Action =
    | IpUp
    | IpDown
    | Wifi(e: WifiEvent)
    | TcpAuth(markOk: bool, nvsOk: bool)                        // AUTH accepted over TCP
    | ControlClaim(source: string, markOk: bool, nvsOk: bool)   // anyone calling control_path_ok
    | NoControl                                                 // manual escalation
    | Worker(queueOk: bool, timerOk: bool)
    | Ble(lb: Lifeboat.Event)
    | BleStart(begun: bool)                                     // BL_OTA START that parses, while idle
    | BleOver                                                   // finish refused, abort, disconnect, write failure
    | OtaDone(dst: Part)                                        // an OTA switched the boot partition to dst
    | Reset                                                     // crash or power loss

  /** rb, boot and bootNvs are the device's answers should this step try a rollback or reboot. */
  datatype Event = Event(act: Action, rb: RollbackIo, boot: Boot, bootNvs: bool)

  function Handle(w: World, e: Event): (World, Reboot) {
    match e.act
    case IpUp => var (s, how) := IpGained(w.sys, e.rb); (w.(sys := s), how)
    case IpDown => var (s, how) := IpLost(w.sys, e.rb); (w.(sys := s), how)
    case Wifi(wifi) => var (s, how) := WifiSeen(w.sys, wifi, e.rb); (w.(sys := s), how)
    case TcpAuth(markOk, nvsOk) => (w.(sys := TcpAuthed(w.sys, markOk, nvsOk)), Stay)
    case ControlClaim(source, markOk, nvsOk) => (w.(sys := ControlProven(w.sys, source, markOk, nvsOk)), Stay)
    case NoControl => (w.(sys := RecoveryEnqueued(w.sys)), Stay)
    case Worker(q, t) => (w.(sys := WorkerTurned(w.sys, q, t)), Stay)
    case Ble(lb) =>
      if lb == Lifeboat.ServiceStarted && w.sys.mode != Recovery then (w, Stay)
      else (w.(sys := w.sys.(lb := Lifeboat.Step(w.sys.lb, lb))), Stay)
    case BleStart(begun) =>
      if w.sys.mode == Recovery && !w.xfer && begun then
        (World(w.sys.(mon := Latched(w.sys.mon)), true), Stay)
      else (w, Stay)
    case BleOver => (w.(xfer := false), Stay)
    case OtaDone(dst) => (w.(sys := w.sys.(board := SetImg(w.sys.board, dst, New))), Plain)
    case Reset => (w, Plain)
  }

  function Next(w: World, e: Event): World {
    var (w1, how) := Handle(w, e);
    if how == Stay then w1 else World(BootUp(Booted(w1.sys.board, e.boot, e.bootNvs)), false)
  }

  /** The device keeps its contract; lifeboat bring-up and hiding belong to the coordinator. */
  predicate Enabled(w: World, e: Event) {
    && (Handle(w, e).1 != Stay ==> BootAllowed(Handle(w, e).0.sys.board, Handle(w, e).1, e.boot))
    && (e.act.OtaDone? ==> e.act.dst != Factory && e.act.dst in w.sys.board.parts && e.act.dst != w.sys.board.running)
    && (e.act.Ble? ==> !e.act.lb.Enter? && !e.act.lb.Hide?)
  }

  /** A TCP-authenticated proof of control. */
  predicate Promotes(w: World, e: Event) {
    e.act.TcpAuth? || (e.act.ControlClaim? && e.act.source == "TCP" && w.sys.authed)
  }

  /** Whether marking the image valid and writing the flag would succeed in this step. */
  predicate MarkOk(e: Event) {
    (e.act.TcpAuth? || e.act.ControlClaim?) && e.act.markOk
  }

  predicate NvsOk(e: Event) {
    (e.act.TcpAuth? || e.act.ControlClaim?) && e.act.nvsOk
  }

  /** A promotion of an unverified image that stays unverified. */
  predicate MarkLost(w: World, e: Event) {
    Promotes(w, e) && Eligible(w.sys.board) && !MarkOk(e)
  }

  function Run(w: World, evs: seq<Event>): World
    decreases |evs|
  {
    if evs == [] then w else Next(Run(w, evs[..|evs| - 1]), evs[|evs| - 1])
  }

  predicate Feasible(w: World, evs: seq<Event>) {
    forall i :: 0 <= i < |evs| ==> Enabled(Run(w, evs[..i]), evs[i])
  }

  // ---- the coordinator invariant ----

  predicate Core(w: World) {
    var s := w.sys;
    && s.mode != Startup && s.queue <= Coordinator.QUEUE_DEPTH
    && (s.mode == Normal ==> s.authed && s.mon.done && !s.lb.lifeboat)
    && (s.lb.lifeboat ==> s.mode == Recovery)
  }

  lemma LifeboatFlag(lb: Lifeboat.State, e: Lifeboat.Event)
    ensures Lifeboat.Step(lb, e).lifeboat == if e.Enter? then true else if e.Hide? then false else lb.lifeboat
  {
    match e
    case Enter(q, t) =>
    case Hide =>
    case ServiceStarted =>
    case Link(on) =>
    case Radio(gap) =>
    case Worker(invalid) =>
    case Tick =>
  }

  lemma BootCore(b: Board)
    ensures Core(World(BootUp(b), false))
    ensures BootUp(b).board == b && BootUp(b).mode == WaitControl && BootUp(b).mon == ARMED
  {
    hide Lifeboat.Step;
    LifeboatFlag(Lifeboat.BOOT, Lifeboat.Hide);
  }

  /** What a step without reboot may do to the mode, the monitor and the board. */
  predicate Moves(s: Sys, s': Sys) {
    && s'.board == s.board
    && (s'.mode == s.mode || (s.mode == Normal && s'.mode == WaitControl))
    && (s.mon.done && s.mode != Normal ==> s'.mon.done)
  }

  lemma WifiStateCore(w: World, up: bool)
    requires Core(w)
    ensures Core(w.(sys := WifiStateSeen(w.sys, up))) && Moves(w.sys, WifiStateSeen(w.sys, up))
    ensures !up ==> WifiStateSeen(w.sys, up).mode != Normal
  {
    hide Lifeboat.Step;
    LifeboatFlag(w.sys.lb, Lifeboat.Hide);
  }

  lemma WifiErrorCore(w: World, code: int, rb: RollbackIo)
    requires Core(w)
    ensures var (s, how) := WifiErrorSeen(w.sys, code, rb);
            how == Stay ==> Core(w.(sys := s)) && Moves(w.sys, s) && s.mode == w.sys.mode
  {
  }

  lemma PromotionCore(w: World, source: string, markOk: bool, nvsOk: bool)
    requires Core(w)
    ensures Core(w.(sys := ControlProven(w.sys, source, markOk, nvsOk)))
  {
    hide Lifeboat.Step;
    LifeboatFlag(w.sys.lb, Lifeboat.Hide);
  }

  lemma WorkerCore(w: World, q: bool, t: bool)
    requires Core(w)
    ensures Core(w.(sys := WorkerTurned(w.sys, q, t)))
    ensures var s := WorkerTurned(w.sys, q, t); s.board == w.sys.board && s.mon == w.sys.mon
    ensures WorkerTurned(w.sys, q, t).mode in {w.sys.mode, Recovery}
  {
    hide Lifeboat.Step;
    LifeboatFlag(w.sys.lb, Lifeboat.Enter(q, t));
  }

  lemma NextCore(w: World, e: Event)
    requires Core(w) && Enabled(w, e)
    ensures Core(Next(w, e))
  {
    hide Lifeboat.Step, BootUp, WifiStateSeen, WifiErrorSeen, ControlProven, WorkerTurned;
    BootCore(Booted(Handle(w, e).0.sys.board, e.boot, e.bootNvs));
    match e.act
    case IpUp =>
      WifiStateCore(w, true);
      var s := WifiStateSeen(w.sys, true);
      WifiErrorCore(w.(sys := s.(err := ErrSource.SetString(s.err, ""))), ErrSource.ES_NONE, e.rb);
    case IpDown =>
      WifiStateCore(w, false);
      var s := WifiStateSeen(w.sys, false);
      WifiErrorCore(w.(sys := s.(err := ErrSource.SetEnum(s.err, ErrSource.ES_IP_LOST))), ErrSource.ES_IP_LOST, e.rb);
    case Wifi(wifi) => WifiCore(w, wifi, e.rb);
    case TcpAuth(markOk, nvsOk) => PromotionCore(w.(sys := w.sys.(authed := true)), "TCP", markOk, nvsOk);
    case ControlClaim(source, markOk, nvsOk) => PromotionCore(w, source, markOk, nvsOk);
    case NoControl =>
    case Worker(q, t) => WorkerCore(w, q, t);
    case Ble(lb) => LifeboatFlag(w.sys.lb, lb);
    case BleStart(begun) =>
    case BleOver =>
    case OtaDone(dst) =>
    case Reset =>
  }

  lemma WifiCore(w: World, wifi: WifiEvent, rb: RollbackIo)
    requires Core(w)
    ensures var (s, how) := WifiSeen(w.sys, wifi, rb);
            how == Stay ==> Core(w.(sys := s)) && Moves(w.sys, s)
  {
    hide WifiStateSeen, WifiErrorSeen, Core;
    WifiStateCore(w, false);
    var s := WifiStateSeen(w.sys, false);
    match wifi
    case StaStart(haveSsid) =>
      ErrKeepsCore(w, ErrSource.SetString(w.sys.err, "SCANNING"));
      var err := ErrSource.SetEnum(w.sys.err, ErrSource.ES_NO_CREDS);
      ErrKeepsCore(w, err);
      WifiErrorCore(w.(sys := w.sys.(err := err)), ErrSource.ES_NO_CREDS, rb);
    case StaDisconnected(reason) =>
      var err := ErrSource.SetEnum(s.err, CodeOf(reason));
      ErrKeepsCore(w.(sys := s), err);
      WifiErrorCore(w.(sys := s.(err := err)), CodeOf(reason), rb);
    case StaStop =>
    case OtherWifi =>
  }

  lemma ErrKeepsCore(w: World, err: ErrSource.Snapshot)
    requires Core(w)
    ensures Core(w.(sys := w.sys.(err := err)))
  {
  }

  lemma {:induction false} RunCore(w: World, evs: seq<Event>)
    requires Core(w) && Feasible(w, evs)
    ensures Core(Run(w, evs))
    decreases |evs|
  {
    hide Next, Enabled, Core;
    if evs != [] {
      var n := |evs| - 1;
      FeasiblePrefix(w, evs, n);
      RunCore(w, evs[..n]);
      NextCore(Run(w, evs[..n]), evs[n]);
    }
  }

  lemma FeasiblePrefix(w: World, evs: seq<Event>, n: nat)
    requires n <= |evs|
    ensures Feasible(w, evs) ==> Feasible(w, evs[..n])
  {
    hide Next, Enabled, Run;
    forall i | 0 <= i < n ensures evs[..n][..i] == evs[..i] && evs[..n][i] == evs[i] {
    }
  }

  // ---- how recovery ends and NORMAL begins ----

  /** A step that neither promotes nor reboots: to recovery by the worker, out of NORMAL by a Wi-Fi loss, or nowhere. */
  lemma OrdinaryStep(w: World, e: Event)
    requires Core(w) && Handle(w, e).1 == Stay && !Promotes(w, e)
    ensures var s, s' := w.sys, Handle(w, e).0.sys;
            && (s'.mode == s.mode || (s.mode == Normal && s'.mode == WaitControl)
                || (e.act.Worker? && s'.mode == Recovery))
            && (s.mon.done && s.mode != Normal ==> s'.mon.done)
  {
    hide Lifeboat.Step, WifiStateSeen, WifiErrorSeen, WorkerTurned;
    match e.act
    case IpUp =>
      WifiStateCore(w, true);
      var s := WifiStateSeen(w.sys, true);
      WifiErrorCore(w.(sys := s.(err := ErrSource.SetString(s.err, ""))), ErrSource.ES_NONE, e.rb);
    case IpDown =>
      WifiStateCore(w, false);
      var s := WifiStateSeen(w.sys, false);
      WifiErrorCore(w.(sys := s.(err := ErrSource.SetEnum(s.err, ErrSource.ES_IP_LOST))), ErrSource.ES_IP_LOST, e.rb);
    case Wifi(wifi) => WifiCore(w, wifi, e.rb);
    case TcpAuth(_, _) =>
    case ControlClaim(_, _, _) =>
    case NoControl =>
    case Worker(q, t) => WorkerCore(w, q, t);
    case Ble(_) =>
    case BleStart(_) =>
    case BleOver =>
    case OtaDone(_) =>
    case Reset =>
  }

  lemma ModeChangesOnlyByPromotionOrReboot(w: World, e: Event)
    requires Core(w)
    ensures w.sys.mode == Recovery && Next(w, e).sys.mode != Recovery ==>
              Handle(w, e).1 != Stay || (Promotes(w, e) && Next(w, e).sys.mode == Normal)
    ensures w.sys.mode != Normal ==> (Next(w, e).sys.mode == Normal <==> Promotes(w, e))
  {
    hide Handle, Core, Promotes, BootUp;
    BootCore(Booted(Handle(w, e).0.sys.board, e.boot, e.bootNvs));
    if Promotes(w, e) {
      PromotionEffect(w, e);
    } else if Handle(w, e).1 == Stay {
      OrdinaryStep(w, e);
    }
  }

  /** Only rollbacks, promotions and finished OTAs write the board. */
  lemma BoardKept(w: World, e: Event)
    requires !MonitorRollback(w, e) && !Promotes(w, e) && !e.act.OtaDone?
    ensures Handle(w, e).0.sys.board == w.sys.board
  {
    hide Lifeboat.Step, WifiStateSeen, WifiErrorSeen, WorkerTurned;
    var s1, s0 := WifiStateSeen(w.sys, true), WifiStateSeen(w.sys, false);
    CallbacksKeepBoard(w.sys, true, 0, e.rb, false, false);
    CallbacksKeepBoard(w.sys, false, 0, e.rb, false, false);
    match e.act
    case IpUp =>
      CallbacksKeepBoard(s1.(err := ErrSource.SetString(s1.err, "")), true, ErrSource.ES_NONE, e.rb, false, false);
    case IpDown =>
      CallbacksKeepBoard(s0.(err := ErrSource.SetEnum(s0.err, ErrSource.ES_IP_LOST)), true,
                         ErrSource.ES_IP_LOST, e.rb, false, false);
    case Wifi(wifi) =>
      if wifi.StaStart? {
        CallbacksKeepBoard(w.sys.(err := ErrSource.SetEnum(w.sys.err, ErrSource.ES_NO_CREDS)), true,
                           ErrSource.ES_NO_CREDS, e.rb, false, false);
      } else if wifi.StaDisconnected? {
        var code := CodeOf(wifi.reason);
        CallbacksKeepBoard(s0.(err := ErrSource.SetEnum(s0.err, code)), true, code, e.rb, false, false);
      }
    case TcpAuth(_, _) =>
    case ControlClaim(_, _, _) =>
    case NoControl =>
    case Worker(q, t) => CallbacksKeepBoard(w.sys, true, 0, e.rb, q, t);
    case Ble(_) =>
    case BleStart(_) =>
    case BleOver =>
    case OtaDone(_) =>
    case Reset =>
  }

  lemma CallbacksKeepBoard(s: Sys, up: bool, code: int, rb: RollbackIo, q: bool, t: bool)
    ensures WifiStateSeen(s, up).board == s.board
    ensures WifiErrorSeen(s, code, rb).1 == Official || WifiErrorSeen(s, code, rb).1.Manual?
            || WifiErrorSeen(s, code, rb).0.board == s.board
    ensures WorkerTurned(s, q, t).board == s.board
  {
    hide Lifeboat.Step;
  }

  /** A promotion rewrites the flag only on entering NORMAL, and marks only an unverified image. */
  lemma PromotionEffect(w: World, e: Event)
    requires Promotes(w, e)
    ensures Handle(w, e).1 == Stay && Next(w, e).sys.mode == Normal
    ensures var b, b' := w.sys.board, Next(w, e).sys.board;
            && (Eligible(b') <==> Eligible(b) && !MarkOk(e))
            && (PostRollback(b') <==> PostRollback(b) && (w.sys.mode == Normal || !NvsOk(e)))
  {
    hide Lifeboat.Step;
  }

  /** The step of the run at which the NORMAL it ends in was entered. */
  function EnteredAt(w: World, evs: seq<Event>): nat
    decreases |evs|
  {
    if evs == [] then 0
    else
      var n := |evs| - 1;
      if Run(w, evs[..n]).sys.mode == Normal then EnteredAt(w, evs[..n]) else n
  }

  /** Every promotion from step i on failed to mark the image. */
  predicate NeverMarked(w: World, evs: seq<Event>, i: nat) {
    forall k :: i <= k < |evs| ==> !(Promotes(Run(w, evs[..k]), evs[k]) && MarkOk(evs[k]))
  }

  /** What holds in NORMAL, told from the step i that entered it. */
  predicate NormalSince(w: World, evs: seq<Event>, i: nat)
    requires i < |evs|
  {
    var before, after := Run(w, evs[..i]), Run(w, evs);
    && before.sys.mode != Normal && Promotes(before, evs[i])
    && (PostRollback(after.sys.board) <==> PostRollback(before.sys.board) && !NvsOk(evs[i]))
    && (Eligible(after.sys.board) <==> Eligible(before.sys.board) && NeverMarked(w, evs, i))
  }

  lemma StaysNormal(w: World, e: Event)
    requires Core(w) && Enabled(w, e) && w.sys.mode == Next(w, e).sys.mode == Normal
    ensures var b, b' := w.sys.board, Next(w, e).sys.board;
            && (Eligible(b') <==> Eligible(b) && !(Promotes(w, e) && MarkOk(e)))
            && (PostRollback(b') <==> PostRollback(b))
  {
    hide Handle, BootUp, Eligible, PostRollback, MonitorRollback;
    BootCore(Booted(Handle(w, e).0.sys.board, e.boot, e.bootNvs));
    if Promotes(w, e) {
      PromotionEffect(w, e);
    } else {
      RollbackReboots(w, e);
      BoardKept(w, e);
    }
  }

  lemma RollbackReboots(w: World, e: Event)
    ensures MonitorRollback(w, e) || e.act.OtaDone? ==> Handle(w, e).1 != Stay
  {
  }

  lemma NeverMarkedMore(w: World, evs: seq<Event>, i: nat)
    requires 0 <= i < |evs| - 1
    ensures var n := |evs| - 1;
            NeverMarked(w, evs, i) <==>
              NeverMarked(w, evs[..n], i) && !(Promotes(Run(w, evs[..n]), evs[n]) && MarkOk(evs[n]))
  {
    hide Run, Promotes, MarkOk;
    var n := |evs| - 1;
    forall k | 0 <= k < n ensures evs[..n][..k] == evs[..k] && evs[..n][k] == evs[k] {
    }
  }

  /** One more step in NORMAL. */
  lemma NormalSinceMore(w: World, evs: seq<Event>, i: nat)
    requires 0 <= i < |evs| - 1 && NormalSince(w, evs[..|evs| - 1], i)
    requires var before, e := Run(w, evs[..|evs| - 1]), evs[|evs| - 1];
             var b, b' := before.sys.board, Run(w, evs).sys.board;
             && (Eligible(b') <==> Eligible(b) && !(Promotes(before, e) && MarkOk(e)))
             && (PostRollback(b') <==> PostRollback(b))
    ensures NormalSince(w, evs, i)
  {
    hide Run, Eligible, PostRollback, Promotes, MarkOk, NvsOk, NeverMarked;
    assert evs[..|evs| - 1][..i] == evs[..i];
    NeverMarkedMore(w, evs, i);
  }

  lemma JustEntered(w: World, evs: seq<Event>)
    requires evs != [] && Promotes(Run(w, evs[..|evs| - 1]), evs[|evs| - 1])
    requires Run(w, evs[..|evs| - 1]).sys.mode != Normal
    ensures NormalSince(w, evs, |evs| - 1)
  {
    var n := |evs| - 1;
    var before, e := Run(w, evs[..n]), evs[n];
    assert Run(w, evs) == Next(before, e);
    PromotionEffect(before, e);
    hide Next, Handle, Run, Eligible, PostRollback, Promotes, MarkOk;
    OnlyLast(w, evs);
  }

  lemma OnlyLast(w: World, evs: seq<Event>)
    requires evs != []
    ensures var n := |evs| - 1; NeverMarked(w, evs, n) <==> !(Promotes(Run(w, evs[..n]), evs[n]) && MarkOk(evs[n]))
  {
    hide Run, Promotes, MarkOk;
  }

  lemma {:induction false} NormalIsItsEntry(w: World, evs: seq<Event>)
    requires Core(w) && w.sys.mode != Normal && Feasible(w, evs) && Run(w, evs).sys.mode == Normal
    ensures EnteredAt(w, evs) < |evs| && NormalSince(w, evs, EnteredAt(w, evs))
    decreases |evs|
  {
    var n := |evs| - 1;
    var before, e := Run(w, evs[..n]), evs[n];
    FeasiblePrefix(w, evs, n);
    RunCore(w, evs[..n]);
    assert Enabled(before, e) && Run(w, evs) == Next(before, e);
    assert EnteredAt(w, evs) == if before.sys.mode == Normal then EnteredAt(w, evs[..n]) else n;
    hide Next, Handle, Enabled, Core, Eligible, PostRollback, Promotes, MarkOk, Run, Feasible, EnteredAt, NormalSince;
    if before.sys.mode == Normal {
      NormalIsItsEntry(w, evs[..n]);
      StaysNormal(before, e);
      NormalSinceMore(w, evs, EnteredAt(w, evs[..n]));
    } else {
      ModeChangesOnlyByPromotionOrReboot(before, e);
      JustEntered(w, evs);
    }
  }

  /**
   * From any board, over every run: NORMAL means TCP-authenticated, monitor
   * latched, lifeboat off; a lifeboat that is on means RECOVERY. The post-rollback
   * flag is up in NORMAL exactly if it was up when NORMAL was entered and could not
   * be written then; the image is still up for rollback exactly if it was then
   * and no promotion since could mark it.
   */
  lemma CoordinatorInvariant(b: Board, evs: seq<Event>)
    requires Feasible(World(BootUp(b), false), evs)
    ensures var w := World(BootUp(b), false); var s := Run(w, evs).sys;
            && (s.mode == Normal ==> s.authed && s.mon.done && !s.lb.lifeboat)
            && (s.lb.lifeboat ==> s.mode == Recovery)
            && (s.mode == Normal ==> EnteredAt(w, evs) < |evs| && NormalSince(w, evs, EnteredAt(w, evs)))
  {
    hide BootUp, Run, Feasible, NormalSince, EnteredAt;
    var w := World(BootUp(b), false);
    BootCore(b);
    RunCore(w, evs);
    if Run(w, evs).sys.mode == Normal {
      NormalIsItsEntry(w, evs);
    }
  }

  // ---- no rollback in the middle of a flash ----

  /** The step reboots because the monitor rolled back. */
  predicate MonitorRollback(w: World, e: Event) {
    Handle(w, e).1 == Official || Handle(w, e).1.Manual?
  }

  lemma RollbackNeedsUnlatchedMonitor(w: World, e: Event)
    requires MonitorRollback(w, e)
    ensures e.act.IpDown? || e.act.Wifi?
    ensures Eligible(w.sys.board) && !PostRollback(w.sys.board)
    ensures w.sys.mode == Normal || (!w.sys.mon.done && w.sys.mon.streak == 0)
    ensures (Handle(w, e).0.sys.board, Handle(w, e).1) == TryRollback(w.sys.board, e.rb)
  {
    hide Lifeboat.Step;
  }

  /** The next Wi-Fi failure makes the monitor roll back. */
  predicate RollbackDue(w: World) {
    && Eligible(w.sys.board) && !PostRollback(w.sys.board)
    && (w.sys.mode == Normal || (!w.sys.mon.done && w.sys.mon.streak == 0))
  }

  const DROP: Action := Wifi(StaDisconnected(NoApFound))

  /** A Wi-Fi drop and, if it comes to that, an official rollback to factory. */
  const DROPPED := Event(DROP, RollbackIo(true, true, true), Boot(Factory, Invalid, Invalid), true)

  /** With the device's partition table, some event rolls back exactly when one is due. */
  lemma RollbackExactlyWhenDue(w: World)
    requires w.sys.board.parts == {Factory, Ota0, Ota1}
    ensures (exists e :: Enabled(w, e) && MonitorRollback(w, e)) <==> RollbackDue(w)
  {
    forall e | MonitorRollback(w, e) ensures RollbackDue(w) {
      RollbackNeedsUnlatchedMonitor(w, e);
    }
    if RollbackDue(w) {
      DropRollsBack(w);
    }
  }

  lemma DropRollsBack(w: World)
    requires Factory in w.sys.board.parts && RollbackDue(w)
    ensures Enabled(w, DROPPED) && MonitorRollback(w, DROPPED)
  {
    hide Lifeboat.Step, ErrSource.SetEnum;
    assert Handle(w, DROPPED).1 == Official;
  }

  /** Nothing but a lost mark takes this away: the image is confirmed, or the monitor latched outside NORMAL. */
  predicate Shielded(w: World) {
    !Eligible(w.sys.board) || (w.sys.mon.done && w.sys.mode != Normal)
  }

  lemma StepShields(w: World, e: Event)
    requires Core(w) && Enabled(w, e) && Next(w, e).xfer
    requires w.xfer ==> Shielded(w)
    ensures Shielded(Next(w, e)) || (w.xfer && MarkLost(w, e))
    ensures Handle(w, e).1 == Stay && !MonitorRollback(w, e)
  {
    hide Lifeboat.Step, BootUp, Eligible, PostRollback, MonitorRollback, WifiStateSeen, WifiErrorSeen, WorkerTurned;
    RollbackReboots(w, e);
    assert !MonitorRollback(w, e) by {
      if MonitorRollback(w, e) {
        MonitorRollbackIs(w, e);
      }
    }
    if w.xfer {
      if Promotes(w, e) {
        PromotionEffect(w, e);
      } else {
        BoardKept(w, e);
        OrdinaryStep(w, e);
      }
    }
  }

  lemma MonitorRollbackIs(w: World, e: Event)
    ensures MonitorRollback(w, e) <==> Handle(w, e).1 == Official || Handle(w, e).1.Manual?
  {
  }

  /** The step of the run that began the transfer active at its end. */
  function BegunAt(w: World, evs: seq<Event>): nat
    decreases |evs|
  {
    if evs == [] then 0
    else
      var n := |evs| - 1;
      if Run(w, evs[..n]).xfer then BegunAt(w, evs[..n]) else n
  }

  ghost predicate MarkLostSince(w: World, evs: seq<Event>, i: nat) {
    exists k :: i <= k < |evs| && MarkLost(Run(w, evs[..k]), evs[k])
  }

  lemma MarkLostMore(w: World, evs: seq<Event>, i: nat)
    requires evs != [] && i < |evs|
    ensures MarkLostSince(w, evs[..|evs| - 1], i) ==> MarkLostSince(w, evs, i)
    ensures MarkLost(Run(w, evs[..|evs| - 1]), evs[|evs| - 1]) ==> MarkLostSince(w, evs, i)
  {
    hide Run, MarkLost;
    var n := |evs| - 1;
    if MarkLostSince(w, evs[..n], i) {
      var k :| i <= k < n && MarkLost(Run(w, evs[..n][..k]), evs[..n][k]);
      assert evs[..n][..k] == evs[..k] && evs[..n][k] == evs[k];
    }
  }

  lemma {:induction false} ShieldedUnlessMarkLost(w: World, evs: seq<Event>)
    requires Core(w) && !w.xfer && Feasible(w, evs) && Run(w, evs).xfer
    ensures BegunAt(w, evs) < |evs|
    ensures Shielded(Run(w, evs)) || MarkLostSince(w, evs, BegunAt(w, evs))
    decreases |evs|
  {
    var n := |evs| - 1;
    var before, e := Run(w, evs[..n]), evs[n];
    FeasiblePrefix(w, evs, n);
    RunCore(w, evs[..n]);
    assert Enabled(before, e) && Run(w, evs) == Next(before, e);
    assert BegunAt(w, evs) == if before.xfer then BegunAt(w, evs[..n]) else n;
    hide Next, Handle, Enabled, Core, Shielded, MarkLost, MarkLostSince, Run, Feasible, BegunAt;
    if before.xfer {
      ShieldedUnlessMarkLost(w, evs[..n]);
      MarkLostMore(w, evs, BegunAt(w, evs[..n]));
    }
    if !before.xfer || Shielded(before) {
      StepShields(before, e);
    }
  }

  /**
   * A rollback in the middle of a transfer happens only if, since the transfer
   * began, an unverified image was promoted and could not be marked valid. That
   * the flag could not be written does not matter, nor do ignored claims.
   */
  lemma NoRollbackMidFlash(b: Board, evs: seq<Event>, e: Event)
    requires Feasible(World(BootUp(b), false), evs)
    requires Run(World(BootUp(b), false), evs).xfer
    requires MonitorRollback(Run(World(BootUp(b), false), evs), e)
    ensures MarkLostSince(World(BootUp(b), false), evs, BegunAt(World(BootUp(b), false), evs))
  {
    hide Run, Handle, BootUp, MonitorRollback, Feasible;
    BootCore(b);
    var w := World(BootUp(b), false);
    ShieldedUnlessMarkLost(w, evs);
    RollbackNeedsUnlatchedMonitor(Run(w, evs), e);
  }

  /** The events evs go on during one transfer and end in a rollback. */
  predicate RollsBackDuring(w: World, evs: seq<Event>) {
    && evs != [] && Feasible(w, evs)
    && (forall k :: 0 <= k < |evs| ==> Run(w, evs[..k]).xfer)
    && MonitorRollback(Run(w, evs[..|evs| - 1]), evs[|evs| - 1])
  }

  lemma {:induction false} StaysConfirmed(w: World, evs: seq<Event>, n: nat)
    requires n < |evs| && Core(w) && !Eligible(w.sys.board) && Feasible(w, evs)
    requires forall k :: 0 <= k < |evs| ==> Run(w, evs[..k]).xfer
    ensures !Eligible(Run(w, evs[..n]).sys.board)
    decreases n
  {
    if n > 0 {
      var m := n - 1;
      var before, e := Run(w, evs[..m]), evs[m];
      assert evs[..n][..m] == evs[..m] && evs[..n][m] == evs[m];
      FeasiblePrefix(w, evs, m);
      RunCore(w, evs[..m]);
      StaysConfirmed(w, evs, m);
      assert Enabled(before, e) && Run(w, evs[..n]) == Next(before, e) && Next(before, e).xfer;
      hide Next, Handle, Enabled, Core, Eligible, Promotes, MonitorRollback, Run;
      StepShields(before, e);
      RollbackReboots(before, e);
      NextIs(before, e);
      if Promotes(before, e) {
        PromotionEffect(before, e);
      } else {
        BoardKept(before, e);
      }
    }
  }

  lemma NextIs(w: World, e: Event)
    ensures Handle(w, e).1 == Stay ==> Next(w, e) == Handle(w, e).0
  {
  }

  function Quietly(a: Action): Event {
    Event(a, RollbackIo(true, true, true), Boot(Factory, Undefined, Undefined), true)
  }

  /** Wi-Fi stops, a TCP client authenticates but the image cannot be marked, Wi-Fi drops. */
  const WAY_BACK: seq<Event> := [Quietly(Wifi(StaStop)), Quietly(TcpAuth(false, true)), DROPPED]

  lemma UnverifiedRollsBack(w: World)
    requires Core(w) && w.xfer && Factory in w.sys.board.parts && Eligible(w.sys.board)
    ensures RollsBackDuring(w, WAY_BACK)
  {
    hide Lifeboat.Step;
    var w1 := Next(w, WAY_BACK[0]);
    assert w1.sys.board == w.sys.board && w1.sys.mode != Normal && w1.xfer;
    var w2 := Next(w1, WAY_BACK[1]);
    assert w2.sys.mode == Normal && w2.xfer && Factory in w2.sys.board.parts;
    PromotionEffect(w1, WAY_BACK[1]);
    DropRollsBack(w2);
    assert Enabled(w, WAY_BACK[0]) && Enabled(w1, WAY_BACK[1]);
    hide Next, Enabled, MonitorRollback, Core, Eligible;
    assert WAY_BACK[..0] == [] && WAY_BACK[..1] == [WAY_BACK[0]] && WAY_BACK[..2] == [WAY_BACK[0], WAY_BACK[1]];
    assert [WAY_BACK[0]][..0] == [] && [WAY_BACK[0], WAY_BACK[1]][..1] == [WAY_BACK[0]];
    assert Run(w, WAY_BACK[..0]) == w && Run(w, WAY_BACK[..1]) == w1 && Run(w, WAY_BACK[..2]) == w2;
  }

  /**
   * During a transfer the monitor can still come to roll back if and only if the
   * running image is unverified: a mark that works puts it out of reach, and until
   * then a mark that fails brings it about.
   */
  lemma MidFlashRollbackExactlyWhenUnverified(w: World)
    requires Core(w) && w.xfer && w.sys.board.parts == {Factory, Ota0, Ota1}
    ensures (exists evs :: RollsBackDuring(w, evs)) <==> Eligible(w.sys.board)
  {
    if Eligible(w.sys.board) {
      UnverifiedRollsBack(w);
    } else {
      forall evs ensures !RollsBackDuring(w, evs) {
        if RollsBackDuring(w, evs) {
          StaysConfirmed(w, evs, |evs| - 1);
          hide Run, Eligible, MonitorRollback, Feasible, Core;
          RollbackNeedsUnlatchedMonitor(Run(w, evs[..|evs| - 1]), evs[|evs| - 1]);
          assert false;
        }
      }
    }
  }

  // ---- no rollback loop ----

  /** What stands between two rollbacks: proof of control, a finished OTA, or a boot of the factory image. */
  predicate Rescue(w: World, e: Event) {
    || Promotes(w, e) || e.act.OtaDone?
    || (Handle(w, e).1 != Stay && e.boot.running == Factory)
  }

  /** The flag is up, or no image is left to roll back from. */
  predicate Spent(b: Board) {
    PostRollback(b) || (!Fresh(b.ota0) && !Fresh(b.ota1))
  }

  /** A manual fallback whose flag write failed, into a board that still holds an unverified image. */
  predicate FlagLost(w: World, e: Event) {
    Handle(w, e).1.Manual? && !e.rb.nvsOk && (Fresh(e.boot.ota0) || Fresh(e.boot.ota1))
  }

  lemma RollbackSpends(w: World, e: Event)
    requires Enabled(w, e) && MonitorRollback(w, e) && !Rescue(w, e)
    ensures Spent(Next(w, e).sys.board) <==> !FlagLost(w, e)
  {
    hide Handle, BootUp;
    RollbackNeedsUnlatchedMonitor(w, e);
    BootCore(Booted(Handle(w, e).0.sys.board, e.boot, e.bootNvs));
  }

  lemma SpentNeverRollsBack(w: World, e: Event)
    requires Spent(w.sys.board)
    ensures !MonitorRollback(w, e)
  {
    if MonitorRollback(w, e) {
      RollbackNeedsUnlatchedMonitor(w, e);
      hide Handle;
      match w.sys.board.running case Factory => case Ota0 => case Ota1 =>
    }
  }

  lemma StaysSpent(w: World, e: Event)
    requires Enabled(w, e) && Spent(w.sys.board) && !Rescue(w, e)
    ensures !MonitorRollback(w, e) && Spent(Next(w, e).sys.board)
  {
    hide BootUp, Handle;
    SpentNeverRollsBack(w, e);
    BoardKept(w, e);
    BootCore(Booted(Handle(w, e).0.sys.board, e.boot, e.bootNvs));
  }

  /** No rescue among the steps from i up to n. */
  predicate NoRescue(w: World, evs: seq<Event>, i: nat, n: nat)
    requires n <= |evs|
  {
    forall k :: i <= k < n ==> !Rescue(Run(w, evs[..k]), evs[k])
  }

  lemma {:induction false} SpentFrom(w: World, evs: seq<Event>, i: nat, n: nat)
    requires i <= n <= |evs| && Feasible(w, evs) && NoRescue(w, evs, i, n)
    requires Spent(Run(w, evs[..i]).sys.board)
    ensures Spent(Run(w, evs[..n]).sys.board)
    decreases n
  {
    hide Next, Enabled, Handle, Rescue, MonitorRollback, Spent;
    if i < n {
      var m := n - 1;
      assert evs[..n][..m] == evs[..m] && evs[..n][m] == evs[m];
      assert Enabled(Run(w, evs[..m]), evs[m]) && !Rescue(Run(w, evs[..m]), evs[m]);
      SpentFrom(w, evs, i, m);
      StaysSpent(Run(w, evs[..m]), evs[m]);
    }
  }

  /**
   * Over any multi-boot run from any state, between two rollbacks by the monitor
   * there is a proof of control, a finished OTA or a boot of the factory image,
   * whichever of the official rollback, the fallback and its boot-partition call
   * fails; or else the first of the two was a manual fallback that lost its flag.
   */
  lemma NoRollbackLoop(w: World, evs: seq<Event>, i: nat, j: nat)
    requires Feasible(w, evs) && i < j < |evs|
    requires MonitorRollback(Run(w, evs[..i]), evs[i]) && MonitorRollback(Run(w, evs[..j]), evs[j])
    ensures NoRescue(w, evs, i, j) ==> FlagLost(Run(w, evs[..i]), evs[i])
  {
    hide Next, Handle, Rescue, Spent, MonitorRollback, FlagLost, Enabled;
    if NoRescue(w, evs, i, j) {
      assert evs[..i + 1][..i] == evs[..i] && evs[..i + 1][i] == evs[i];
      assert Enabled(Run(w, evs[..i]), evs[i]) && !Rescue(Run(w, evs[..i]), evs[i]);
      RollbackSpends(Run(w, evs[..i]), evs[i]);
      if !FlagLost(Run(w, evs[..i]), evs[i]) {
        SpentFrom(w, evs, i + 1, j);
        SpentNeverRollsBack(Run(w, evs[..j]), evs[j]);
      }
    }
  }

  /** Some run without any rescue ends in a rollback by the monitor. */
  ghost predicate CanRollBack(w: World) {
    exists evs :: RollsBackAtEnd(w, evs)
  }

  predicate RollsBackAtEnd(w: World, evs: seq<Event>) {
    && evs != [] && Feasible(w, evs) && NoRescue(w, evs, 0, |evs| - 1)
    && MonitorRollback(Run(w, evs[..|evs| - 1]), evs[|evs| - 1])
  }

  /** A plain reboot that finds slot p. */
  function ResetInto(b: Board, p: Part): Event {
    Event(Reset, RollbackIo(true, true, true), Boot(p, b.ota0, b.ota1), true)
  }

  lemma UnspentRollsBack(b: Board, p: Part)
    requires Factory in b.parts && p in b.parts && p != Factory && Fresh(ImgOf(b, p)) && !PostRollback(b)
    ensures RollsBackAtEnd(World(BootUp(b), false), [ResetInto(b, p), DROPPED])
  {
    hide Lifeboat.Step, ErrSource.SetEnum;
    var w, e := World(BootUp(b), false), ResetInto(b, p);
    var evs := [e, DROPPED];
    var w1 := Next(w, e);
    assert w1 == World(BootUp(b.(running := p)), false);
    assert Handle(w1, DROPPED).1 == Official && !Rescue(w, e);
    assert Enabled(w, e) && Enabled(w1, DROPPED);
    hide Next, Handle, Enabled, BootUp, Rescue;
    assert evs[..0] == [] && evs[..1] == [e] && [e][..0] == [];
    assert Run(w, evs[..0]) == w && Run(w, evs[..1]) == w1;
  }

  /**
   * Just booted with the device's partition table, the monitor can roll back again
   * before any rescue if and only if the flag is clear and a slot is unverified.
   */
  lemma RollbackPossibleExactlyWhenUnspent(b: Board)
    requires b.parts == {Factory, Ota0, Ota1}
    ensures CanRollBack(World(BootUp(b), false)) <==> !Spent(b)
  {
    var w := World(BootUp(b), false);
    BootCore(b);
    if !Spent(b) {
      UnspentRollsBack(b, if Fresh(b.ota0) then Ota0 else Ota1);
    } else {
      forall evs | RollsBackAtEnd(w, evs) ensures false {
        assert evs[..0] == [];
        hide Spent, MonitorRollback, NoRescue, Feasible, BootUp;
        SpentFrom(w, evs, 0, |evs| - 1);
        SpentNeverRollsBack(Run(w, evs[..|evs| - 1]), evs[|evs| - 1]);
      }
    }
  }

  /** On a device with a factory image a manual fallback that could set the boot partition boots factory: a rescue. */
  lemma ManualFallbackReachesFactory(w: World, e: Event)
    requires Factory in w.sys.board.parts && Enabled(w, e) && MonitorRollback(w, e)
    ensures Handle(w, e).1.Manual? && e.rb.setBootOk ==> e.boot.running == Factory && Rescue(w, e)
  {
    RollbackNeedsUnlatchedMonitor(w, e);
    hide Handle;
    FactoryComesFirst(w.sys.board);
  }

  /** After a rollback with no rescue in it, a further one is possible exactly when the flag was lost. */
  lemma LoopExactlyWhenFlagLost(w: World, e: Event)
    requires w.sys.board.parts == {Factory, Ota0, Ota1}
    requires Enabled(w, e) && MonitorRollback(w, e) && !Rescue(w, e)
    ensures CanRollBack(Next(w, e)) <==> FlagLost(w, e)
    ensures FlagLost(w, e) ==> !e.rb.setBootOk
  {
    RollbackNeedsUnlatchedMonitor(w, e);
    RollbackSpends(w, e);
    ManualFallbackReachesFactory(w, e);
    var b := Booted(Handle(w, e).0.sys.board, e.boot, e.bootNvs);
    BootCore(b);
    hide BootUp, Handle, CanRollBack, Spent, FlagLost;
    RollbackPossibleExactlyWhenUnspent(b);
  }

  /** A drop on an unverified image, the official rollback to factory, a new image, and a drop again. */
  const TWO_ROLLBACKS: seq<Event> := [
    Event(DROP, RollbackIo(true, true, true), Boot(Factory, Invalid, Undefined), true),
    Event(OtaDone(Ota0), RollbackIo(true, true, true), Boot(Ota0, PendingVerify, Undefined), true),
    Event(DROP, RollbackIo(true, true, true), Boot(Factory, Invalid, Undefined), true)]

  /** Two rollbacks in one run do happen, with a new image in between. */
  lemma TwoRollbacksHappen(b: Board)
    requires b.running == Ota0 && b.ota0 == New && b.flag == Missing && b.parts == {Factory, Ota0, Ota1}
    ensures var w := World(BootUp(b), false);
            && Feasible(w, TWO_ROLLBACKS)
            && MonitorRollback(w, TWO_ROLLBACKS[0])
            && MonitorRollback(Run(w, TWO_ROLLBACKS[..2]), TWO_ROLLBACKS[2])
  {
    hide Lifeboat.Step, ErrSource.SetEnum;
    var w, evs := World(BootUp(b), false), TWO_ROLLBACKS;
    assert Handle(w, evs[0]).1 == Official;
    var b1 := Board(b.parts, Factory, Invalid, Undefined, Stored(0));
    var w1 := Next(w, evs[0]);
    assert w1 == World(BootUp(b1), false);
    var b2 := Board(b.parts, Ota0, PendingVerify, Undefined, Stored(0));
    var w2 := Next(w1, evs[1]);
    assert w2 == World(BootUp(b2), false);
    assert Handle(w2, evs[2]).1 == Official;
    assert Enabled(w, evs[0]) && Enabled(w1, evs[1]) && Enabled(w2, evs[2]);
    hide Next, Handle, Enabled, BootUp;
    assert evs[..0] == [] && evs[..1] == [evs[0]] && evs[..2] == [evs[0], evs[1]];
    assert [evs[0]][..0] == [] && [evs[0], evs[1]][..1] == [evs[0]];
    assert Run(w, evs[..0]) == w && Run(w, evs[..1]) == w1 && Run(w, evs[..2]) == w2;
  }

  // ---- where the device's own contract is needed ----

  /** A manual fallback whose flag write and boot-partition call both fail: the image comes back unverified. */
  function FailingFallback(b: Board): Event {
    Event(DROP, RollbackIo(false, false, false), Boot(Ota0, PendingVerify, b.ota1), true)
  }

  /** Were the flag write to fail too, the monitor would roll back twice in a row. */
  lemma FlagWriteFailureLoops(b: Board)
    requires b.running == Ota0 && b.ota0 == New && b.flag == Missing && b.parts == {Factory, Ota0, Ota1}
    ensures var w, e := World(BootUp(b), false), FailingFallback(b);
            && Enabled(w, e) && MonitorRollback(w, e) && !Rescue(w, e)
            && Enabled(Next(w, e), e) && MonitorRollback(Next(w, e), e) && !Rescue(Next(w, e), e)
  {
    hide Lifeboat.Step, ErrSource.SetEnum;
    var w, e := World(BootUp(b), false), FailingFallback(b);
    assert Handle(w, e).0.sys.board == b && Handle(w, e).1 == Manual(NoTarget);
    var b2 := b.(ota0 := PendingVerify);
    assert Next(w, e) == World(BootUp(b2), false);
    assert Handle(Next(w, e), e).0.sys.board == b2 && Handle(Next(w, e), e).1 == Manual(NoTarget);
  }

  /** Were marking the image valid to fail, a promotion and a Wi-Fi drop would roll back mid-flash. */
  lemma MarkFailureRollsBackMidFlash(b: Board)
    requires b.running == Ota0 && b.ota0 == PendingVerify && b.flag == Missing && b.parts == {Factory, Ota0, Ota1}
    ensures exists w1, w2, w3, w4 ::
              && w1 == Next(World(BootUp(b), false), Quietly(NoControl))
              && w2 == Next(w1, Quietly(Worker(true, true)))
              && w3 == Next(w2, Quietly(BleStart(true)))
              && w4 == Next(w3, Quietly(TcpAuth(false, true)))
              && w4.xfer && Enabled(w4, Quietly(DROP)) && MonitorRollback(w4, Quietly(DROP))
  {
    hide Lifeboat.Step, ErrSource.SetEnum;
    var w1 := Next(World(BootUp(b), false), Quietly(NoControl));
    assert w1.sys.queue == 1 && w1.sys.board == b && !w1.xfer;
    var w2 := Next(w1, Quietly(Worker(true, true)));
    assert w2.sys.mode == Recovery && w2.sys.board == b && !w2.xfer;
    var w3 := Next(w2, Quietly(BleStart(true)));
    assert w3.xfer && w3.sys.mode == Recovery && w3.sys.board == b;
    var w4 := Next(w3, Quietly(TcpAuth(false, true)));
    assert w4.xfer && w4.sys.mode == Normal && w4.sys.board == b.(flag := Stored(0));
  }
}
