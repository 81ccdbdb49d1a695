/**
 * The BLE lifeboat: flags, a bounded queue of advertising kicks and the GAP
 * callbacks. Every API call, callback and worker turn is one atomic step.
 */
module Lifeboat {

  const QUEUE_DEPTH := 8

  datatype Watch = NoTimer | Ticking | Halted

  /** starts and stops count the esp_ble_gap_start/stop_advertising calls made. */
  datatype State = State(
    stackReady: bool, advReady: bool, advRunning: bool, connected: bool,
    lifeboat: bool, deferred: bool, advCfg: bool, scanCfg: bool,
    queue: bool, kicks: nat, watch: Watch, starts: nat, stops: nat)

  const BOOT := State(false, false, false, false, false, false, false, false, false, 0, NoTimer, 0, 0)

  // ---- specification of each call, field by field ----

  /** xQueueSend without waiting: dropped when there is no queue or it is full. */
  function Push(queue: bool, kicks: nat): nat {
    if queue && kicks < QUEUE_DEPTH then kicks + 1 else kicks
  }

  function PostIf(s: State, post: bool): nat {
    if post then Push(s.queue, s.kicks) else s.kicks
  }

  function Count(n: nat, on: bool): nat {
    if on then n + 1 else n
  }

  predicate Ready(s: State) {
    s.advReady && s.stackReady
  }

  /** The lifeboat should be advertising: on, stack and payload ready, nobody connected. */
  predicate Wanted(s: State) {
    s.lifeboat && !s.connected && Ready(s)
  }

  function LifeboatSet(s: State, enable: bool): State {
    var kick := enable && !s.connected && Ready(s);
    s.(lifeboat := enable,
       deferred := enable && (s.deferred || !kick),
       kicks := PostIf(s, kick),
       stops := Count(s.stops, !enable && s.advRunning))
  }

  function StartAdvertising(s: State): State {
    s.(deferred := s.deferred || (s.lifeboat && !Ready(s)),
       kicks := PostIf(s, s.lifeboat && Ready(s)))
  }

  function SetConnected(s: State, on: bool): State {
    var lost := !on && s.lifeboat;
    s.(connected := on,
       deferred := s.deferred || (lost && !Ready(s)),
       kicks := PostIf(s, lost && Ready(s)))
  }

  /** queueOk and timerOk: whether the queue and the watchdog timer can be created. */
  function FallbackInit(s: State, queueOk: bool, timerOk: bool): State {
    if s.stackReady then s
    else s.(queue := s.queue || queueOk, stackReady := true, advReady := false, deferred := false,
            connected := false, advRunning := false, advCfg := false, scanCfg := false,
            watch := if s.watch == NoTimer && timerOk then Ticking else s.watch)
  }

  function FallbackStop(s: State): State {
    s.(watch := if s.watch == NoTimer then NoTimer else Halted,
       stops := Count(s.stops, s.advRunning),
       connected := false, advRunning := false, deferred := false)
  }

  /** The worker's turn; invalid says that the first start call answers INVALID_STATE. */
  function AdvKick(s: State, invalid: bool): State {
    s.(deferred := s.deferred || (s.lifeboat && !Ready(s)),
       starts := Count(Count(s.starts, Wanted(s)), Wanted(s) && invalid),
       stops := Count(s.stops, Wanted(s) && invalid))
  }

  datatype Gap = AdvDataSet(ok: bool) | ScanRspSet(ok: bool) | AdvStarted(ok: bool) | AdvStopped | OtherGap

  /** Both payloads are configured for the first time with this event. */
  predicate Completes(s: State, e: Gap) {
    && !s.advReady
    && (s.advCfg || (e.AdvDataSet? && e.ok))
    && (s.scanCfg || (e.ScanRspSet? && e.ok))
  }

  function GapEvent(s: State, e: Gap): State {
    s.(advCfg := s.advCfg || (e.AdvDataSet? && e.ok),
       scanCfg := s.scanCfg || (e.ScanRspSet? && e.ok),
       advRunning := if e.AdvStarted? then e.ok else s.advRunning && !e.AdvStopped?,
       advReady := s.advReady || Completes(s, e),
       deferred := s.deferred && !Completes(s, e),
       kicks := PostIf(s, (e.AdvStopped? && Wanted(s)) || (Completes(s, e) && s.deferred)))
  }

  function WatchTick(s: State): State {
    s.(kicks := PostIf(s, Wanted(s) && !s.advRunning))
  }

  // ---- the code ----

  class Lifeboat {
    var sStackReady: bool
    var sAdvReady: bool
    var sAdvRunning: bool
    var sConnected: bool
    var sLifeboatEnabled: bool
    var sAdvStartDeferred: bool
    var sAdvCfgDone: bool       // bit 0 of the mask
    var sScanCfgDone: bool      // bit 1
    var sBleQ: bool
    var kicks: nat
    var sAdvWatch: Watch
    var starts: nat
    var stops: nat

    constructor ()
      ensures Now() == BOOT
    {
      sStackReady, sAdvReady, sAdvRunning, sConnected := false, false, false, false;
      sLifeboatEnabled, sAdvStartDeferred, sAdvCfgDone, sScanCfgDone := false, false, false, false;
      sBleQ, kicks, sAdvWatch, starts, stops := false, 0, NoTimer, 0, 0;
    }

    function Now(): State
      reads this
    {
      State(sStackReady, sAdvReady, sAdvRunning, sConnected, sLifeboatEnabled, sAdvStartDeferred,
            sAdvCfgDone, sScanCfgDone, sBleQ, kicks, sAdvWatch, starts, stops)
    }

    method BlePost()
      modifies `kicks
      ensures kicks == Push(sBleQ, old(kicks))
    {
      if !sBleQ {
        return;
      }
      if kicks < QUEUE_DEPTH {
        kicks := kicks + 1;
      }
    }

    method BleStopAdvertising()
      modifies `stops
      ensures stops == Count(old(stops), sAdvRunning)
    {
      if !sAdvRunning {
        return;
      }
      stops := stops + 1;
    }

    method BleLifeboatSet(enable: bool)
      modifies this
      ensures Now() == LifeboatSet(old(Now()), enable)
    {
      sLifeboatEnabled := enable;
      if !enable {
        sAdvStartDeferred := false;
        BleStopAdvertising();
        return;
      }
      if !sConnected && sAdvReady && sStackReady {
        BlePost();
      } else {
        sAdvStartDeferred := true;
      }
    }

    method BleStartAdvertising()
      modifies this
      ensures Now() == StartAdvertising(old(Now()))
    {
      if !sLifeboatEnabled {
        return;
      }
      if !sAdvReady || !sStackReady {
        sAdvStartDeferred := true;
        return;
      }
      BlePost();
    }

    method BleSetConnected(on: bool)
      modifies this
      ensures Now() == SetConnected(old(Now()), on)
    {
      sConnected := on;
      if !on && sLifeboatEnabled {
        if sAdvReady && sStackReady {
          BlePost();
        } else {
          sAdvStartDeferred := true;
        }
      }
    }

    method BleFallbackInit(queueOk: bool, timerOk: bool)
      modifies this
      ensures Now() == FallbackInit(old(Now()), queueOk, timerOk)
    {
      if sStackReady {
        return;
      }
      if !sBleQ {
        sBleQ := queueOk;
      }
      sStackReady := true;
      sAdvReady := false;
      sAdvStartDeferred := false;
      sConnected := false;
      sAdvRunning := false;
      sAdvCfgDone, sScanCfgDone := false, false;
      if sAdvWatch == NoTimer && timerOk {
        sAdvWatch := Ticking;
      }
    }

    method BleFallbackStop()
      modifies this
      ensures Now() == FallbackStop(old(Now()))
    {
      BleStopAdvertising();
      if sAdvWatch != NoTimer {
        sAdvWatch := Halted;
      }
      sConnected := false;
      sAdvRunning := false;
      sAdvStartDeferred := false;
    }

    method FbAdvKick(invalid: bool)
      modifies this
      ensures Now() == AdvKick(old(Now()), invalid)
    {
      if !sLifeboatEnabled {
        return;
      }
      if !sStackReady || !sAdvReady {
        sAdvStartDeferred := true;
        return;
      }
      if sConnected {
        return;
      }
      starts := starts + 1;
      if invalid {
        stops := stops + 1;
        starts := starts + 1;
      }
    }

    /** One turn of the worker loop; it blocks while the queue is empty. */
    method BleWorkerTurn(invalid: bool)
      modifies this
      ensures Now() == if old(kicks) == 0 then old(Now())
                       else AdvKick(old(Now()).(kicks := old(kicks) - 1), invalid)
    {
      if kicks == 0 {
        return;
      }
      kicks := kicks - 1;
      FbAdvKick(invalid);
    }

    method FbGapEvt(e: Gap)
      modifies this
      ensures Now() == GapEvent(old(Now()), e)
    {
      FbGapStatus(e);
      FbPayloadReady();
    }

    /** The switch of the GAP callback. */
    method FbGapStatus(e: Gap)
      modifies `sAdvCfgDone, `sScanCfgDone, `sAdvRunning, `kicks
      ensures sAdvCfgDone == (old(sAdvCfgDone) || (e.AdvDataSet? && e.ok))
      ensures sScanCfgDone == (old(sScanCfgDone) || (e.ScanRspSet? && e.ok))
      ensures sAdvRunning == if e.AdvStarted? then e.ok else old(sAdvRunning) && !e.AdvStopped?
      ensures kicks == if e.AdvStopped? && old(Wanted(Now())) then Push(sBleQ, old(kicks)) else old(kicks)
    {
      match e {
        case AdvDataSet(ok) =>
          if ok {
            sAdvCfgDone := true;
          }
        case ScanRspSet(ok) =>
          if ok {
            sScanCfgDone := true;
          }
        case AdvStarted(ok) =>
          sAdvRunning := ok;
        case AdvStopped =>
          sAdvRunning := false;
          if sLifeboatEnabled && !sConnected && sAdvReady && sStackReady {
            BlePost();
          }
        case OtherGap =>
      }
    }

    /** The tail of the GAP callback: both payloads configured, honour a deferred start. */
    method FbPayloadReady()
      modifies `sAdvReady, `sAdvStartDeferred, `kicks
      ensures var complete := sAdvCfgDone && sScanCfgDone && !old(sAdvReady);
              && sAdvReady == (old(sAdvReady) || complete)
              && sAdvStartDeferred == (old(sAdvStartDeferred) && !complete)
              && kicks == if complete && old(sAdvStartDeferred) then Push(sBleQ, old(kicks)) else old(kicks)
    {
      if sAdvCfgDone && sScanCfgDone {
        if !sAdvReady {
          sAdvReady := true;
          if sAdvStartDeferred {
            sAdvStartDeferred := false;
            BlePost();
          }
        }
      }
    }

    method AdvWatchCb()
      modifies this
      ensures Now() == WatchTick(old(Now()))
    {
      if sLifeboatEnabled && !sConnected && sAdvReady && sStackReady && !sAdvRunning {
        BlePost();
      }
    }
  }

  // ---- the machine: what the rest of the system and the radio do to it ----

  datatype Event =
    | Enter(queueOk: bool, timerOk: bool)   // recovery: bring the stack up, lifeboat on
    | Hide                                  // leaving recovery: lifeboat off, fallback stopped
    | ServiceStarted                        // GATT up while in recovery
    | Link(on: bool)                        // GATT connect / disconnect
    | Radio(gap: Gap)
    | Worker(invalid: bool)
    | Tick                                  // watchdog period; no effect unless ticking

  function Step(s: State, e: Event): State {
    match e
    case Enter(q, t) => LifeboatSet(FallbackInit(s, q, t), true)
    case Hide => FallbackStop(LifeboatSet(s, false))
    case ServiceStarted => StartAdvertising(s)
    case Link(on) => SetConnected(s, on)
    case Radio(gap) => GapEvent(s, gap)
    case Worker(invalid) => if s.kicks == 0 then s else AdvKick(s.(kicks := s.kicks - 1), invalid)
    case Tick => if s.watch == Ticking then WatchTick(s) else s
  }

  function Run(s: State, evs: seq<Event>): State
    decreases |evs|
  {
    if evs == [] then s else Step(Run(s, evs[..|evs| - 1]), evs[|evs| - 1])
  }

  /**
   * A start call was issued at step n or later, and since then the lifeboat has
   * stayed wanted and advertising has not stopped. Read off the run alone.
   */
  ghost predicate StartedSince(s: State, evs: seq<Event>) {
    exists n :: 0 <= n < |evs| && IssuedAt(s, evs, n) && UndisturbedFrom(s, evs, n + 1)
  }

  predicate IssuedAt(s: State, evs: seq<Event>, n: nat)
    requires n < |evs|
  {
    Run(s, evs[..n + 1]).starts > Run(s, evs[..n]).starts
  }

  predicate UndisturbedFrom(s: State, evs: seq<Event>, n: nat)
    requires n <= |evs|
  {
    && (forall k :: n <= k <= |evs| ==> Wanted(Run(s, evs[..k])))
    && (forall k :: n <= k < |evs| ==> evs[k] != Radio(AdvStopped))
  }

  /** What every step keeps. */
  predicate Inv(s: State) {
    && s.kicks <= QUEUE_DEPTH
    && (!s.queue ==> s.kicks == 0 && s.starts == 0)
    && (s.lifeboat ==> s.stackReady)
    && (s.lifeboat && !s.advReady ==> s.deferred)
  }

  lemma StepInv(s: State, e: Event)
    requires Inv(s)
    ensures Inv(Step(s, e))
    ensures s.queue ==> Step(s, e).queue
  {
  }

  /**
   * One step: if the lifeboat is wanted afterwards then a kick is queued, a start
   * call was just issued, or it was wanted before and nothing stopped or took a kick.
   */
  lemma StepKeepsWakeUp(s: State, e: Event)
    requires Inv(s) && Wanted(Step(s, e)) && Step(s, e).queue
    ensures var s' := Step(s, e);
            s'.kicks > 0 || s'.starts > s.starts ||
            (Wanted(s) && s.queue && s.kicks == 0 && e != Radio(AdvStopped))
  {
    match e
    case Enter(q, t) =>
    case Hide =>
    case ServiceStarted =>
    case Link(on) =>
    case Radio(gap) =>
    case Worker(invalid) =>
    case Tick =>
  }

  lemma {:induction false} NoLostWakeUpFrom(s: State, evs: seq<Event>)
    requires Inv(s) && !Wanted(s)
    ensures var t := Run(s, evs);
            Inv(t) && (Wanted(t) && t.queue ==> t.kicks > 0 || StartedSince(s, evs))
    decreases |evs|
  {
    hide Step, Wanted;
    var n := |evs|;
    if n > 0 {
      var before := evs[..n - 1];
      NoLostWakeUpFrom(s, before);
      var t, e := Run(s, before), evs[n - 1];
      StepInv(t, e);
      var t' := Step(t, e);
      assert evs[..n] == evs;
      if Wanted(t') && t'.queue && t'.kicks == 0 {
        StepKeepsWakeUp(t, e);
        if t'.starts > t.starts {
          assert IssuedAt(s, evs, n - 1);
          assert UndisturbedFrom(s, evs, n);
        } else {
          var m :| 0 <= m < n - 1 && IssuedAt(s, before, m) && UndisturbedFrom(s, before, m + 1);
          Extend(s, evs, m);
        }
      }
    }
  }

  lemma Extend(s: State, evs: seq<Event>, m: nat)
    requires |evs| > 0 && m < |evs| - 1
    requires IssuedAt(s, evs[..|evs| - 1], m) && UndisturbedFrom(s, evs[..|evs| - 1], m + 1)
    requires Wanted(Run(s, evs)) && evs[|evs| - 1] != Radio(AdvStopped)
    ensures IssuedAt(s, evs, m) && UndisturbedFrom(s, evs, m + 1)
  {
    hide Step, Wanted, Run;
    var n := |evs|;
    var before := evs[..n - 1];
    assert before[..m] == evs[..m] && before[..m + 1] == evs[..m + 1];
    forall k | m + 1 <= k <= n ensures Wanted(Run(s, evs[..k])) {
      if k < n {
        assert before[..k] == evs[..k];
      } else {
        assert evs[..k] == evs;
      }
    }
    forall k | m + 1 <= k < n ensures evs[k] != Radio(AdvStopped) {
      if k < n - 1 {
        assert before[k] == evs[k];
      }
    }
  }

  /**
   * No lost wake-up: after any run from boot in which the queue could be created,
   * whenever the lifeboat is wanted a kick is queued or a start call has been
   * issued since it became wanted or advertising last stopped. Without the queue
   * neither ever happens.
   */
  lemma NoLostWakeUp(evs: seq<Event>)
    ensures var t := Run(BOOT, evs);
            Wanted(t) ==> (t.kicks > 0 || StartedSince(BOOT, evs) <==> t.queue)
  {
    NoLostWakeUpFrom(BOOT, evs);
    if !Run(BOOT, evs).queue {
      forall n | 0 <= n < |evs| ensures !IssuedAt(BOOT, evs, n) {
        NoQueueNoStart(BOOT, evs, n + 1);
        NoQueueNoStart(BOOT, evs, n);
      }
    }
  }

  lemma {:induction false} NoQueueNoStart(s: State, evs: seq<Event>, n: nat)
    requires Inv(s) && n <= |evs| && !Run(s, evs).queue
    ensures Run(s, evs[..n]).starts == 0 && !Run(s, evs[..n]).queue
    decreases |evs|
  {
    hide Step;
    if n == |evs| {
      assert evs[..n] == evs;
      RunInv(s, evs);
    } else {
      var before := evs[..|evs| - 1];
      RunInv(s, before);
      StepInv(Run(s, before), evs[|evs| - 1]);
      NoQueueNoStart(s, before, n);
      assert before[..n] == evs[..n];
    }
  }

  lemma {:induction false} RunInv(s: State, evs: seq<Event>)
    requires Inv(s)
    ensures Inv(Run(s, evs))
    decreases |evs|
  {
    if evs != [] {
      RunInv(s, evs[..|evs| - 1]);
      StepInv(Run(s, evs[..|evs| - 1]), evs[|evs| - 1]);
    }
  }

  // ---- entering and leaving recovery ----

  lemma EnterTurnsOn(s: State, q: bool, t: bool)
    ensures Step(s, Enter(q, t)).lifeboat && Step(s, Enter(q, t)).stackReady
  {
  }

  predicate AtRest(s: State) {
    !s.lifeboat && !s.connected && !s.advRunning && !s.deferred && s.watch != Ticking
  }

  lemma HideRests(s: State)
    ensures var s' := Step(s, Hide);
            AtRest(s') && s'.kicks == s.kicks && s'.starts == s.starts && s'.stackReady == s.stackReady
            && (s.advRunning ==> s'.stops > s.stops)
  {
  }

  // ---- the watchdog does not come back ----

  lemma StepKeepsHalted(s: State, e: Event)
    requires s.stackReady && s.watch == Halted
    ensures Step(s, e).stackReady && Step(s, e).watch == Halted
  {
    hide PostIf, Count, Wanted, Ready, Completes;
    match e
    case Enter(q, t) => assert FallbackInit(s, q, t) == s;
    case Hide =>
    case ServiceStarted =>
    case Link(on) =>
    case Radio(gap) =>
    case Worker(invalid) =>
    case Tick =>
  }

  /** Once stopped the watchdog stays stopped: bring-up is skipped for a stack already up. */
  lemma {:induction false} WatchdogStaysHalted(s: State, evs: seq<Event>)
    requires s.stackReady && s.watch == Halted
    ensures Run(s, evs).stackReady && Run(s, evs).watch == Halted
    decreases |evs|
  {
    hide Step;
    if evs != [] {
      WatchdogStaysHalted(s, evs[..|evs| - 1]);
      StepKeepsHalted(Run(s, evs[..|evs| - 1]), evs[|evs| - 1]);
    }
  }

  /**
   * With everything ready and nobody connected, an idle radio with an empty queue
   * is woken by the next tick exactly when the watchdog is running.
   */
  lemma TickRescuesExactlyIfTicking(s: State)
    requires Inv(s) && Wanted(s) && s.queue && !s.advRunning && s.kicks == 0
    ensures Step(s, Tick).kicks > 0 <==> s.watch == Ticking
  {
  }

  /** The step at which recovery was first entered; the length of the run if it never was. */
  function FirstEntry(evs: seq<Event>): (i: nat)
    ensures i <= |evs| && (i < |evs| ==> evs[i].Enter?)
    ensures forall j :: 0 <= j < i ==> !evs[j].Enter?
    decreases |evs|
  {
    if evs == [] then 0
    else
      var n := |evs| - 1;
      var i := FirstEntry(evs[..n]);
      assert forall j :: 0 <= j < n ==> evs[..n][j] == evs[j];
      if i < n then i else if evs[n].Enter? then n else n + 1
  }

  predicate HiddenFrom(evs: seq<Event>, i: nat) {
    exists j :: i < j < |evs| && evs[j] == Hide
  }

  lemma EnterWatch(s: State, q: bool, t: bool)
    ensures var s' := Step(s, Enter(q, t));
            && s'.stackReady
            && s'.watch == if !s.stackReady && s.watch == NoTimer && t then Ticking else s.watch
  {
    hide PostIf, Count, Wanted, Ready, Completes;
  }

  lemma StepWatch(s: State, e: Event)
    requires !e.Enter?
    ensures Step(s, e).stackReady == s.stackReady
    ensures Step(s, e).watch == if e.Hide? && s.watch != NoTimer then Halted else s.watch
  {
    hide PostIf, Count, Wanted, Ready, Completes;
    match e
    case Hide =>
    case ServiceStarted =>
    case Link(on) =>
    case Radio(gap) =>
    case Worker(invalid) =>
    case Tick =>
  }

  lemma HiddenMore(evs: seq<Event>, i: nat)
    requires i < |evs|
    ensures var n := |evs| - 1;
            HiddenFrom(evs, i) <==> i < n && (HiddenFrom(evs[..n], i) || evs[n] == Hide)
  {
    var n := |evs| - 1;
    if HiddenFrom(evs, i) {
      var j :| i < j < |evs| && evs[j] == Hide;
      assert j < n ==> evs[..n][j] == Hide;
    }
    if HiddenFrom(evs[..n], i) {
      var j :| i < j < n && evs[..n][j] == Hide;
      assert evs[j] == Hide;
    }
  }

  /**
   * The watchdog over every run from boot: it exists exactly if its timer could be
   * created at the first entry into recovery, and it is halted exactly if the
   * lifeboat was hidden since. A timer that could not be created then never is.
   */
  lemma {:induction false} WatchIsHistory(evs: seq<Event>)
    ensures var t, i := Run(BOOT, evs), FirstEntry(evs);
            && (t.stackReady <==> i < |evs|)
            && t.watch == if i == |evs| || !evs[i].timerOk then NoTimer
                          else if HiddenFrom(evs, i) then Halted
                          else Ticking
    decreases |evs|
  {
    if evs != [] {
      var n := |evs| - 1;
      var s, e, i := Run(BOOT, evs[..n]), evs[n], FirstEntry(evs);
      WatchIsHistory(evs[..n]);
      hide Step, HiddenFrom;
      if i < |evs| {
        HiddenMore(evs, i);
      }
      if e.Enter? {
        EnterWatch(s, e.queueOk, e.timerOk);
      } else {
        StepWatch(s, e);
      }
    }
  }

  // ---- every flag is its history ----

  /** Some event switched it on, and since then nothing switched it off, nor was the stack brought up. */
  ghost predicate Lasting(evs: seq<Event>, on: Event -> bool, off: Event -> bool) {
    exists i :: 0 <= i < |evs| && on(evs[i]) && LastingFrom(evs, i, off)
  }

  ghost predicate LastingFrom(evs: seq<Event>, i: nat, off: Event -> bool) {
    forall j :: i < j < |evs| ==> !off(evs[j]) && j != FirstEntry(evs)
  }

  lemma LastingMore(evs: seq<Event>, on: Event -> bool, off: Event -> bool)
    requires evs != []
    ensures var n := |evs| - 1;
            Lasting(evs, on, off) <==>
              on(evs[n]) || (Lasting(evs[..n], on, off) && !off(evs[n]) && FirstEntry(evs) != n)
  {
    var n := |evs| - 1;
    var before := evs[..n];
    forall i: nat | i < n
      ensures LastingFrom(evs, i, off) <==> LastingFrom(before, i, off) && !off(evs[n]) && FirstEntry(evs) != n
    {
      assert forall j :: 0 <= j < n ==> before[j] == evs[j];
    }
    if on(evs[n]) {
      assert LastingFrom(evs, n, off);
    }
    if Lasting(evs, on, off) && !on(evs[n]) {
      var i :| 0 <= i < |evs| && on(evs[i]) && LastingFrom(evs, i, off);
      assert before[i] == evs[i];
    }
    if Lasting(before, on, off) {
      var i :| 0 <= i < n && on(before[i]) && LastingFrom(before, i, off);
      assert before[i] == evs[i];
    }
  }

  lemma TickPosts(s: State)
    ensures WatchTick(s) == s.(kicks := WatchTick(s).kicks)
    ensures Step(s, Tick) == s.(kicks := Step(s, Tick).kicks)
  {
    hide PostIf, Wanted;
  }

  lemma StepLink(s: State, e: Event)
    ensures var s' := Step(s, e); var up := e.Enter? && !s.stackReady;
            && s'.connected == (e == Link(true) || (s.connected && !e.Link? && !e.Hide? && !up))
            && s'.lifeboat == (e.Enter? || (s.lifeboat && !e.Hide?))
            && ((s.deferred ==> s.lifeboat) ==> (s'.deferred ==> s'.lifeboat))
  {
    hide PostIf, Count, Wanted, Completes, WatchTick;
    match e
    case Enter(q, t) =>
    case Hide =>
    case ServiceStarted =>
    case Link(on) =>
    case Radio(gap) =>
    case Worker(invalid) =>
    case Tick => TickPosts(s);
  }

  lemma StepRadio(s: State, e: Event)
    ensures var s' := Step(s, e); var up := e.Enter? && !s.stackReady;
            s'.advRunning == (e == Radio(AdvStarted(true)) ||
              (s.advRunning && !StartedOrStopped(e) && !e.Hide? && !up))
  {
    hide PostIf, Count, Wanted, Completes, Ready, WatchTick;
    match e
    case Enter(q, t) =>
    case Hide =>
    case ServiceStarted =>
    case Link(on) =>
    case Radio(gap) =>
    case Worker(invalid) =>
    case Tick => TickPosts(s);
  }

  lemma StepPayload(s: State, e: Event)
    ensures var s' := Step(s, e); var up := e.Enter? && !s.stackReady;
            && s'.advCfg == (e == Radio(AdvDataSet(true)) || (s.advCfg && !up))
            && s'.scanCfg == (e == Radio(ScanRspSet(true)) || (s.scanCfg && !up))
            && (s.advReady == (s.advCfg && s.scanCfg) ==> s'.advReady == (s'.advCfg && s'.scanCfg))
  {
    hide PostIf, Count, Wanted, Ready, WatchTick;
    match e
    case Enter(q, t) =>
    case Hide =>
    case ServiceStarted =>
    case Link(on) =>
    case Radio(gap) =>
    case Worker(invalid) =>
    case Tick => TickPosts(s);
  }

  predicate StartedOrStopped(e: Event) {
    e.Radio? && (e.gap.AdvStarted? || e.gap.AdvStopped?)
  }

  predicate Never(e: Event) {
    false
  }

  predicate IsHide(e: Event) {
    e.Hide?
  }

  predicate IsEnter(e: Event) {
    e.Enter?
  }

  predicate Connects(e: Event) {
    e == Link(true)
  }

  predicate EndsLink(e: Event) {
    e.Link? || e.Hide?
  }

  predicate StartsRadio(e: Event) {
    e == Radio(AdvStarted(true))
  }

  predicate EndsRadio(e: Event) {
    StartedOrStopped(e) || e.Hide?
  }

  predicate SetsAdv(e: Event) {
    e == Radio(AdvDataSet(true))
  }

  predicate SetsScan(e: Event) {
    e == Radio(ScanRspSet(true))
  }

  /**
   * Over every run from boot: connected is the last link event unless hidden or
   * brought up since; the lifeboat is on since a recovery until hidden; the radio
   * runs since a successful start until a start or stop report or a hide; and the
   * payload is ready exactly when both of its parts were set since the stack came up.
   */
  lemma {:induction false} FlagsAreHistory(evs: seq<Event>)
    ensures var t := Run(BOOT, evs);
            && (t.connected <==> Lasting(evs, Connects, EndsLink))
            && (t.lifeboat <==> Lasting(evs, IsEnter, IsHide))
            && (t.advRunning <==> Lasting(evs, StartsRadio, EndsRadio))
            && (t.advCfg <==> Lasting(evs, SetsAdv, Never))
            && (t.scanCfg <==> Lasting(evs, SetsScan, Never))
            && (t.advReady <==> t.advCfg && t.scanCfg)
            && (t.deferred ==> t.lifeboat)
    decreases |evs|
  {
    if evs != [] {
      var n := |evs| - 1;
      var s := Run(BOOT, evs[..n]);
      FlagsAreHistory(evs[..n]);
      WatchIsHistory(evs[..n]);
      BringUpIsFirstEntry(evs);
      assert Run(BOOT, evs) == Step(s, evs[n]);
      hide Step, Run, Lasting;
      StepLink(s, evs[n]);
      StepRadio(s, evs[n]);
      StepPayload(s, evs[n]);
      LastingMore(evs, Connects, EndsLink);
      LastingMore(evs, IsEnter, IsHide);
      LastingMore(evs, StartsRadio, EndsRadio);
      LastingMore(evs, SetsAdv, Never);
      LastingMore(evs, SetsScan, Never);
    }
  }

  lemma BringUpIsFirstEntry(evs: seq<Event>)
    requires evs != []
    ensures var n := |evs| - 1; FirstEntry(evs) == n <==> evs[n].Enter? && FirstEntry(evs[..n]) == n
  {
  }

  // ---- what is posted, started and stopped ----

  /** The steps that ask for advertising. */
  predicate Posts(s: State, e: Event) {
    match e
    case Enter(_, _) => s.stackReady && s.advReady && !s.connected
    case Hide => false
    case ServiceStarted => s.lifeboat && s.advReady && s.stackReady
    case Link(on) => !on && s.lifeboat && s.advReady && s.stackReady
    case Radio(AdvDataSet(ok)) => ok && s.scanCfg && !s.advReady && s.lifeboat
    case Radio(ScanRspSet(ok)) => ok && s.advCfg && !s.advReady && s.lifeboat
    case Radio(AdvStopped) => s.lifeboat && !s.connected && s.advReady && s.stackReady
    case Radio(_) => false
    case Worker(_) => false
    case Tick => s.watch == Ticking && s.lifeboat && !s.connected && s.advReady && s.stackReady && !s.advRunning
  }

  /** What holds in every state a run from boot reaches. */
  predicate Reached(s: State) {
    Inv(s) && s.advReady == (s.advCfg && s.scanCfg) && (s.deferred ==> s.lifeboat)
  }

  lemma RunReached(evs: seq<Event>)
    ensures Reached(Run(BOOT, evs))
  {
    hide Run, Lasting;
    RunInv(BOOT, evs);
    FlagsAreHistory(evs);
  }

  /** The queue grows exactly by what is posted while there is room, and shrinks by one per worker turn. */
  lemma QueueMoves(s: State, e: Event)
    requires Reached(s)
    ensures Step(s, e).kicks == if Posts(s, e) && s.queue && s.kicks < 8 then s.kicks + 1
                                else if e.Worker? && s.kicks > 0 then s.kicks - 1
                                else s.kicks
  {
    match e
    case Enter(q, t) =>
    case Hide =>
    case ServiceStarted =>
    case Link(on) =>
    case Radio(gap) =>
    case Worker(invalid) =>
    case Tick =>
  }

  lemma GapCallsNothing(s: State, gap: Gap)
    ensures GapEvent(s, gap).starts == s.starts && GapEvent(s, gap).stops == s.stops
  {
    hide PostIf, Completes, Wanted;
  }

  lemma SetCalls(s: State, on: bool, q: bool, t: bool)
    ensures FallbackInit(s, q, t).starts == s.starts && FallbackInit(s, q, t).stops == s.stops
    ensures LifeboatSet(s, on).starts == s.starts && LifeboatSet(s, on).advRunning == s.advRunning
    ensures LifeboatSet(s, on).stops == s.stops + (if !on && s.advRunning then 1 else 0)
  {
    hide PostIf;
  }

  lemma KickCalls(s: State, invalid: bool)
    ensures var started := s.lifeboat && !s.connected && s.advReady && s.stackReady;
            && AdvKick(s, invalid).starts == s.starts + (if !started then 0 else if invalid then 2 else 1)
            && AdvKick(s, invalid).stops == s.stops + (if started && invalid then 1 else 0)
  {
    hide PostIf, Completes;
  }

  /** Only a worker turn on a wanted lifeboat starts advertising; only that turn's retry and a hide stop it. */
  lemma RadioCalls(s: State, e: Event)
    ensures var started := e.Worker? && s.kicks > 0 && s.lifeboat && !s.connected && s.advReady && s.stackReady;
            && Step(s, e).starts == s.starts + (if !started then 0 else if e.invalid then 2 else 1)
            && Step(s, e).stops == s.stops + (if started && e.invalid then 1
                                              else if e.Hide? && s.advRunning then 2
                                              else 0)
  {
    hide PostIf, GapEvent, AdvKick, Wanted, LifeboatSet, FallbackInit, WatchTick;
    match e
    case Enter(q, t) =>
      SetCalls(s, true, q, t);
      SetCalls(FallbackInit(s, q, t), true, q, t);
    case Hide => SetCalls(s, false, true, true);
    case ServiceStarted =>
    case Link(on) =>
    case Radio(gap) => GapCallsNothing(s, gap);
    case Worker(invalid) => if s.kicks > 0 { KickCalls(s.(kicks := s.kicks - 1), invalid); }
    case Tick => TickPosts(s);
  }

  /** After a client has gone, a ready lifeboat advertises again at the worker's next turn. */
  lemma DisconnectAdvertisesAgain(s: State, invalid: bool)
    requires Inv(s) && s.lifeboat && Ready(s) && s.queue
    ensures var gone := Step(s, Link(false)); var turned := Step(gone, Worker(invalid));
            && Wanted(gone) && gone.kicks > 0
            && Wanted(turned) && turned.starts > gone.starts
  {
  }

  lemma RunSnoc(s: State, evs: seq<Event>, e: Event)
    ensures Run(s, evs + [e]) == Step(Run(s, evs), e)
  {
    assert (evs + [e])[..|evs|] == evs;
  }

  const FIRST_RECOVERY: seq<Event> :=
    [Enter(true, true)] + [Radio(AdvDataSet(true))] + [Radio(ScanRspSet(true))] + [Worker(false)]
  const SECOND_RECOVERY: seq<Event> :=
    FIRST_RECOVERY + [Hide] + [Enter(true, true)] + [Worker(false)] + [Radio(AdvStarted(false))] + [Tick]

  lemma FirstRecovery()
    ensures Run(BOOT, FIRST_RECOVERY) ==
            State(true, true, false, false, true, false, true, true, true, 0, Ticking, 1, 0)
  {
    var e1: seq<Event> := [Enter(true, true)];
    var e2 := e1 + [Radio(AdvDataSet(true))];
    var e3 := e2 + [Radio(ScanRspSet(true))];
    RunSnoc(BOOT, [], Enter(true, true));
    assert [] + e1 == e1;
    assert Run(BOOT, e1) == State(true, false, false, false, true, true, false, false, true, 0, Ticking, 0, 0);
    RunSnoc(BOOT, e1, Radio(AdvDataSet(true)));
    RunSnoc(BOOT, e2, Radio(ScanRspSet(true)));
    assert Run(BOOT, e3) == State(true, true, false, false, true, false, true, true, true, 1, Ticking, 0, 0);
    RunSnoc(BOOT, e3, Worker(false));
    hide Run, Step;
  }

  /** So a start that fails in a second recovery strands the lifeboat. */
  lemma FailedStartStrandsSecondRecovery()
    ensures var t := Run(BOOT, SECOND_RECOVERY);
            Wanted(t) && t.queue && t.kicks == 0 && !t.advRunning && t.watch == Halted
  {
    FirstRecovery();
    var e1 := FIRST_RECOVERY + [Hide];
    var e2 := e1 + [Enter(true, true)];
    var e3 := e2 + [Worker(false)];
    var e4 := e3 + [Radio(AdvStarted(false))];
    RunSnoc(BOOT, FIRST_RECOVERY, Hide);
    assert Run(BOOT, e1) == State(true, true, false, false, false, false, true, true, true, 0, Halted, 1, 0);
    RunSnoc(BOOT, e1, Enter(true, true));
    assert Run(BOOT, e2) == State(true, true, false, false, true, false, true, true, true, 1, Halted, 1, 0);
    RunSnoc(BOOT, e2, Worker(false));
    RunSnoc(BOOT, e3, Radio(AdvStarted(false)));
    assert Run(BOOT, e4) == State(true, true, false, false, true, false, true, true, true, 0, Halted, 2, 0);
    RunSnoc(BOOT, e4, Tick);
  }
}
