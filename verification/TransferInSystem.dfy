/** The BLE transfer running inside the whole system: frames, Wi-Fi, promotion and reboots in any order. */
module TransferInSystem {
  import Transfer = BleOta
  import opened SystemRuns
  import opened RollbackPolicy
  import opened HealthMonitor
  import Coordinator
  import OtaHeader
  import OtaFlash
  import OtaSession
  import BleHost
  import Lifeboat

  /** One monitor seen from both sides, one transfer at two levels of detail. */
  datatype Joint = Joint(w: World, ble: Transfer.Ble)

  /** dst, boot and bootNvs: where a finished image goes and how the reboot after it turns out. */
  datatype Move =
    | Around(e: SystemRuns.Event)
    | Within(t: Transfer.Event, dst: Part, boot: Boot, bootNvs: bool)

  function ImageDone(dst: Part, boot: Boot, bootNvs: bool): SystemRuns.Event {
    SystemRuns.Event(OtaDone(dst), RollbackIo(true, true, true), boot, bootNvs)
  }

  const COLD_LINK := Transfer.BOOT

  function Moved(j: Joint, m: Move): Joint {
    match m
    case Around(e) =>
      var w := SystemRuns.Next(j.w, e);
      Joint(w, if Handle(j.w, e).1 == Stay then j.ble.(mon := w.sys.mon) else COLD_LINK)
    case Within(t, dst, boot, bootNvs) =>
      var ble := Transfer.Step(j.ble, t);
      if ble.restarted then Joint(SystemRuns.Next(j.w, ImageDone(dst, boot, bootNvs)), COLD_LINK)
      else Joint(World(j.w.sys.(mon := ble.mon), ble.bo.active), ble)
  }

  /** The hooks pass the coordinator's mode; transfers move only by their own hooks. */
  predicate Possible(j: Joint, m: Move) {
    match m
    case Around(e) => Enabled(j.w, e) && !e.act.BleStart? && !e.act.BleOver?
    case Within(t, dst, boot, bootNvs) =>
      && (t.Ctrl? ==> t.recovery == (j.w.sys.mode == Coordinator.Recovery))
      && (Transfer.Step(j.ble, t).restarted ==> Enabled(j.w, ImageDone(dst, boot, bootNvs)))
  }

  function Traced(j: Joint, moves: seq<Move>): Joint
    decreases |moves|
  {
    if moves == [] then j else Moved(Traced(j, moves[..|moves| - 1]), moves[|moves| - 1])
  }

  predicate AllPossible(j: Joint, moves: seq<Move>) {
    forall i :: 0 <= i < |moves| ==> Possible(Traced(j, moves[..i]), moves[i])
  }

  ghost predicate InStep(j: Joint) {
    && Transfer.Lockstep(j.ble) && !j.ble.restarted
    && j.w.xfer == j.ble.bo.active && j.w.sys.mon == j.ble.mon
  }

  // ---- one step ----

  /** Only a transfer that begins touches the monitor, and then it latches it. */
  lemma TransferLatches(s: Transfer.Ble, t: Transfer.Event)
    requires Transfer.Lockstep(s) && !s.restarted
    ensures Transfer.Step(s, t).mon ==
            if Transfer.Step(s, t).bo.active && !s.bo.active then Latched(s.mon) else s.mon
  {
    hide Transfer.Lockstep, OtaHeader.CtrlLine, OtaHeader.ParseStart, Transfer.Takes, OtaSession.Begun,
         OtaSession.Finished, OtaSession.Written, OtaSession.Aborted;
  }

  /** What the transfer does in a step, in the system's own vocabulary. */
  function Abstracted(s: Transfer.Ble, s': Transfer.Ble): SystemRuns.Action {
    if s'.bo.active && !s.bo.active then BleStart(true)
    else if s.bo.active && !s'.bo.active then BleOver
    else BleStart(false)
  }

  /** Every hook of the transfer is one system step: a start in recovery, an end, a finished OTA, or nothing. */
  lemma TransferIsSystemStep(j: Joint, m: Move)
    requires InStep(j) && m.Within? && Possible(j, m)
    ensures var s' := Transfer.Step(j.ble, m.t);
            Moved(j, m).w ==
            if s'.restarted then SystemRuns.Next(j.w, ImageDone(m.dst, m.boot, m.bootNvs))
            else SystemRuns.Next(j.w, ImageDone(m.dst, m.boot, m.bootNvs).(act := Abstracted(j.ble, s')))
  {
    hide Transfer.Lockstep, Transfer.Step, Coordinator.BootUp;
    Transfer.StepLockstep(j.ble, m.t);
    TransferLatches(j.ble, m.t);
  }

  /** A promotion around the transfer could not mark the unverified image. */
  predicate LosesMark(j: Joint, m: Move) {
    m.Around? && MarkLost(j.w, m.e)
  }

  /** The system's step under a move. */
  function Under(j: Joint, m: Move): SystemRuns.Event {
    match m
    case Around(e) => e
    case Within(t, dst, boot, bootNvs) =>
      var s' := Transfer.Step(j.ble, t);
      var done := ImageDone(dst, boot, bootNvs);
      if s'.restarted then done else done.(act := Abstracted(j.ble, s'))
  }

  lemma UnderEnabled(j: Joint, m: Move)
    requires InStep(j) && Possible(j, m)
    ensures Enabled(j.w, Under(j, m)) && Moved(j, m).w == SystemRuns.Next(j.w, Under(j, m))
    ensures MarkLost(j.w, Under(j, m)) <==> LosesMark(j, m)
  {
    hide Transfer.Step, Transfer.Lockstep, Coordinator.BootUp;
    if m.Within? {
      TransferIsSystemStep(j, m);
    }
  }

  lemma MovedInStep(j: Joint, m: Move)
    requires InStep(j) && Possible(j, m) && Core(j.w)
    ensures InStep(Moved(j, m)) && Core(Moved(j, m).w)
    ensures Moved(j, m).w.xfer && (j.w.xfer ==> Shielded(j.w)) ==>
              Shielded(Moved(j, m).w) || (j.w.xfer && LosesMark(j, m))
  {
    hide Core, Transfer.Step, Transfer.Lockstep, Shielded, MarkLost, LosesMark, Under, Enabled, Handle;
    UnderEnabled(j, m);
    NextCore(j.w, Under(j, m));
    if Moved(j, m).w.xfer && (j.w.xfer ==> Shielded(j.w)) {
      StepShields(j.w, Under(j, m));
    }
    match m
    case Around(e) => AroundKeepsTransfer(j, e);
    case Within(t, dst, boot, bootNvs) => WithinKeepsTransfer(j, m);
  }

  lemma WithinKeepsTransfer(j: Joint, m: Move)
    requires InStep(j) && Possible(j, m) && m.Within?
    ensures InStep(Moved(j, m))
  {
    hide Transfer.Step, Transfer.Lockstep, Coordinator.BootUp;
    Transfer.BootLockstep();
    HookLockstep(j, m);
    BootArms(Booted(Handle(j.w, ImageDone(m.dst, m.boot, m.bootNvs)).0.sys.board, m.boot, m.bootNvs));
  }

  lemma HookLockstep(j: Joint, m: Move)
    requires InStep(j) && m.Within?
    ensures Transfer.Lockstep(Transfer.Step(j.ble, m.t))
  {
    hide Transfer.Step;
    Transfer.StepLockstep(j.ble, m.t);
  }

  lemma AroundKeepsTransfer(j: Joint, e: SystemRuns.Event)
    requires InStep(j) && Possible(j, Around(e))
    ensures InStep(Moved(j, Around(e)))
  {
    Transfer.BootLockstep();
    hide OtaSession.Consistent, Coordinator.BootUp, Coordinator.WifiStateSeen, Coordinator.WifiErrorSeen,
         Coordinator.ControlProven;
    BootArms(Booted(Handle(j.w, e).0.sys.board, e.boot, e.bootNvs));
  }

  lemma BootArms(b: Board)
    ensures Coordinator.BootUp(b).mon == ARMED
  {
  }

  // ---- whole runs ----

  /** The move that began the transfer active at the end. */
  function BegunAt(j: Joint, moves: seq<Move>): nat
    decreases |moves|
  {
    if moves == [] then 0
    else
      var n := |moves| - 1;
      if Traced(j, moves[..n]).w.xfer then BegunAt(j, moves[..n]) else n
  }

  ghost predicate MarkLostSince(j: Joint, moves: seq<Move>, i: nat) {
    exists k :: i <= k < |moves| && LosesMark(Traced(j, moves[..k]), moves[k])
  }

  lemma MarkLostMore(j: Joint, moves: seq<Move>, i: nat)
    requires moves != [] && i < |moves|
    ensures MarkLostSince(j, moves[..|moves| - 1], i) ==> MarkLostSince(j, moves, i)
    ensures LosesMark(Traced(j, moves[..|moves| - 1]), moves[|moves| - 1]) ==> MarkLostSince(j, moves, i)
  {
    hide Traced, LosesMark;
    var n := |moves| - 1;
    if MarkLostSince(j, moves[..n], i) {
      var k :| i <= k < n && LosesMark(Traced(j, moves[..n][..k]), moves[..n][k]);
      assert moves[..n][..k] == moves[..k] && moves[..n][k] == moves[k];
    }
  }

  lemma PossiblePrefix(j: Joint, moves: seq<Move>, n: nat)
    requires n <= |moves| && AllPossible(j, moves)
    ensures AllPossible(j, moves[..n])
  {
    hide Traced, Possible;
    forall i | 0 <= i < n ensures Possible(Traced(j, moves[..n][..i]), moves[..n][i]) {
      assert moves[..n][..i] == moves[..i];
    }
  }

  lemma {:induction false} TracedInStep(j: Joint, moves: seq<Move>)
    requires InStep(j) && Core(j.w) && !j.w.xfer && AllPossible(j, moves)
    ensures InStep(Traced(j, moves)) && Core(Traced(j, moves).w)
    ensures Traced(j, moves).w.xfer ==>
              BegunAt(j, moves) < |moves|
              && (Shielded(Traced(j, moves).w) || MarkLostSince(j, moves, BegunAt(j, moves)))
    decreases |moves|
  {
    if moves != [] {
      var n := |moves| - 1;
      var before := Traced(j, moves[..n]);
      PossiblePrefix(j, moves, n);
      TracedInStep(j, moves[..n]);
      assert Possible(before, moves[n]) && Traced(j, moves) == Moved(before, moves[n]);
      assert BegunAt(j, moves) == if before.w.xfer then BegunAt(j, moves[..n]) else n;
      hide InStep, Core, Shielded, Moved, Possible, LosesMark, MarkLostSince, Traced, BegunAt, AllPossible;
      MovedInStep(before, moves[n]);
      if before.w.xfer {
        MarkLostMore(j, moves, BegunAt(j, moves[..n]));
      }
    }
  }

  function ColdStart(b: Board): Joint {
    Joint(World(Coordinator.BootUp(b), false), COLD_LINK)
  }

  lemma ColdInStep(b: Board)
    ensures InStep(ColdStart(b)) && Core(ColdStart(b).w)
  {
    hide Coordinator.BootUp;
    Transfer.BootLockstep();
    BootArms(b);
    BootCore(b);
  }

  /**
   * Whatever mixture of frames, control lines, Wi-Fi events, promotions and
   * reboots came before: while the transfer holds a flash handle, an event makes the
   * monitor roll back only if, since the transfer began, an unverified image was
   * promoted and could not be marked valid.
   */
  lemma NoRollbackWhileHandleOpen(b: Board, moves: seq<Move>, e: SystemRuns.Event)
    requires AllPossible(ColdStart(b), moves)
    requires OtaFlash.Open(Traced(ColdStart(b), moves).ble.ota.dev.log) != {}
    requires MonitorRollback(Traced(ColdStart(b), moves).w, e)
    ensures MarkLostSince(ColdStart(b), moves, BegunAt(ColdStart(b), moves))
  {
    hide Traced, Core, MonitorRollback, OtaFlash.Open, AllPossible, MarkLostSince, BegunAt;
    ColdInStep(b);
    TracedInStep(ColdStart(b), moves);
    var j := Traced(ColdStart(b), moves);
    assert j.ble.bo.active;
    hide Handle, InStep;
    RollbackNeedsUnlatchedMonitor(j.w, e);
  }

  // ---- such runs exist ----

  const TO_RECOVERY: seq<Move> := [Around(Quietly(NoControl)), Around(Quietly(Worker(true, true)))]

  lemma RecoveryReached(b: Board)
    ensures AllPossible(ColdStart(b), TO_RECOVERY)
    ensures Traced(ColdStart(b), TO_RECOVERY).w.sys.mode == Coordinator.Recovery
    ensures Traced(ColdStart(b), TO_RECOVERY).ble == COLD_LINK
  {
    var j0, m0, m1 := ColdStart(b), TO_RECOVERY[0], TO_RECOVERY[1];
    hide Lifeboat.Step;
    var j1 := Moved(j0, m0);
    assert j1.w.sys.queue == 1 && j1.ble == COLD_LINK && Possible(j0, m0);
    var j2 := Moved(j1, m1);
    assert j2.w.sys.mode == Coordinator.Recovery && j2.ble == COLD_LINK && Possible(j1, m1);
    hide Moved, Possible;
    assert TO_RECOVERY[..0] == [] && TO_RECOVERY[..1] == [m0] && [m0][..0] == [];
    assert Traced(j0, TO_RECOVERY[..0]) == j0 && Traced(j0, TO_RECOVERY[..1]) == j1;
  }

  const START: Transfer.Event :=
    Transfer.Ctrl(OtaHeader.PrintStart(1, 0), true, OtaSession.BeginIo(OtaSession.SlotOf(1), true),
                  OtaSession.FinishIo(true, true))

  lemma StartAccepted()
    ensures var s := Transfer.Step(COLD_LINK, START);
            Transfer.Lockstep(s) && s.bo.active && !s.restarted && OtaFlash.Open(s.ota.dev.log) != {}
  {
    Transfer.BootLockstep();
    BleHost.StartOpensTransfer(COLD_LINK, [0], 0, 8, START.begin, START.ctrlFinish);
    hide Transfer.CtrlWritten, OtaFlash.Open, OtaHeader.PrintStart, BleHost.Frames;
  }

  /** The host's START line, in recovery, leads to a state with an open handle. */
  lemma TransferCanBeUnderWay(b: Board)
    ensures exists moves :: AllPossible(ColdStart(b), moves)
                            && OtaFlash.Open(Traced(ColdStart(b), moves).ble.ota.dev.log) != {}
  {
    RecoveryReached(b);
    StartAccepted();
    hide Transfer.Step, Coordinator.BootUp, OtaFlash.Open, Transfer.Lockstep;
    var start := Within(START, Ota1, Boot(Ota0, New, New), true);
    var j, moves := Traced(ColdStart(b), TO_RECOVERY), TO_RECOVERY + [start];
    assert moves[..2] == TO_RECOVERY && Traced(ColdStart(b), moves) == Moved(j, start);
    hide Traced;
    forall i | 0 <= i < |moves| ensures Possible(Traced(ColdStart(b), moves[..i]), moves[i]) {
      if i < 2 {
        assert moves[..i] == TO_RECOVERY[..i];
      }
    }
  }
}
