/** The BLE transfer: control lines and framed data over one OTA session. */
module BleOta {
  import opened Bytes
  import opened OtaFlash
  import opened OtaSession
  import opened HealthMonitor
  import OtaHeader
  import opened Text
  import Crc32

  datatype Reply =
    | ErrBusy | ErrBadFmt | ErrForbidden | ErrBegin | AckStart
    | ErrNoActive | ErrFinish | OkRebooting | OkAborted | ErrUnknown | ErrWrite
    | Prog(done: word, of: word)

  const PROG_STEP: word := 0x4_0000

  datatype Xfer = Xfer(active: bool, total: word, written: word, expectCrc: bv32, expectSeq: word, nextMark: word)

  const IDLE := Xfer(false, 0, 0, 0, 0, 0)

  /** restarted: esp_restart was reached; nothing happens after it. */
  datatype Ble = Ble(bo: Xfer, ota: Ota, mon: Mon, tx: seq<Reply>, restarted: bool)

  function Said(s: Ble, r: Reply): Ble {
    s.(tx := s.tx + [r])
  }

  // ---- specification of each hook ----

  function Started(s: Ble, args: seq<byte>, recovery: bool, io: BeginIo): Ble {
    if s.bo.active then Said(s, ErrBusy)
    else
      match OtaHeader.ParseStart(args)
      case BadFormat => Said(s, ErrBadFmt)
      case Image(size, crc) =>
        if !recovery then Said(s, ErrForbidden) else Opened(s, size, crc, io)
  }

  /** The session begun, and with it the transfer. */
  function Opened(s: Ble, size: word, crc: bv32, io: BeginIo): Ble {
    var (ota, e) := Begun(s.ota, size, crc, io);
    if e != Ok then Said(s.(ota := ota), ErrBegin)
    else Said(s.(bo := Xfer(true, size, 0, crc, 0, PROG_STEP), ota := ota, mon := Latched(s.mon)), AckStart)
  }

  function FinishAsked(s: Ble, io: FinishIo): Ble {
    if !s.bo.active then Said(s, ErrNoActive)
    else
      var (ota, e) := Finished(s.ota, io);
      if e != Ok then Said(s.(bo := IDLE, ota := ota), ErrFinish)
      else Said(s.(bo := IDLE, ota := ota, restarted := true), OkRebooting)
  }

  function AbortAsked(s: Ble): Ble {
    if !s.bo.active then Said(s, ErrNoActive)
    else Said(s.(bo := IDLE, ota := Aborted(s.ota)), OkAborted)
  }

  function CtrlWritten(s: Ble, data: seq<byte>, recovery: bool, begin: BeginIo, finish: FinishIo): Ble {
    var line := OtaHeader.CtrlLine(data);
    if data == [] then s
    else if OtaHeader.START <= line then Started(s, line[|OtaHeader.START|..], recovery, begin)
    else if OtaHeader.FINISH <= line then FinishAsked(s, finish)
    else if OtaHeader.ABORT <= line then AbortAsked(s)
    else Said(s, ErrUnknown)
  }

  /** A frame the device takes: well-formed, the next in line, within the image. */
  predicate Takes(bo: Xfer, data: Buffer) {
    && bo.active && |data| >= 6 && |data| == 6 + RdLe16(data[4..])
    && RdLe32(data) == bo.expectSeq
    && Add32(bo.written, RdLe16(data[4..])) <= bo.total
  }

  function Payload(data: Buffer): Buffer
    requires |data| >= 6
  {
    data[6..]
  }

  function Progressed(bo: Xfer, len: word): Xfer {
    bo.(expectSeq := Add32(bo.expectSeq, 1), written := Add32(bo.written, len))
  }

  /** The bookkeeping after a block went to the session. */
  function Counted(s: Ble, len: word): Ble {
    var bo := Progressed(s.bo, len);
    if bo.written >= bo.nextMark || bo.written == bo.total then
      Said(s.(bo := bo.(nextMark := Add32(bo.nextMark, PROG_STEP))), Prog(bo.written, bo.total))
    else s.(bo := bo)
  }

  function Completed(s: Ble, io: FinishIo): Ble {
    var (ota, e) := Finished(s.ota, io);
    if e != Ok then Said(s, ErrFinish).(bo := IDLE, ota := Aborted(ota))
    else Said(s, OkRebooting).(bo := IDLE, ota := ota, restarted := true)
  }

  function DataWritten(s: Ble, data: Buffer, writeOk: bool, finish: FinishIo): Ble {
    if !Takes(s.bo, data) then s
    else
      var (ota, e) := Written(s.ota, Payload(data), writeOk);
      if e != Ok then Said(s, ErrWrite).(bo := IDLE, ota := Aborted(ota))
      else
        var s1 := Counted(s.(ota := ota), |Payload(data)|);
        if s1.bo.written == s1.bo.total then Completed(s1, finish) else s1
  }

  function Disconnected(s: Ble, finish: FinishIo): Ble {
    if !s.bo.active then s
    else if s.bo.written >= s.bo.total && s.bo.total > 0 then
      var (ota, e) := Finished(s.ota, finish);
      if e == Ok then s.(ota := ota, restarted := true)
      else s.(bo := IDLE, ota := Aborted(ota))
    else s.(bo := IDLE, ota := Aborted(s.ota))
  }

  // ---- the code ----

  class BleOta {
    var active: bool
    var total: word
    var written: word
    var expectCrc: bv32
    var expectSeq: word
    var nextProgMark: word
    const session: OtaSession
    const monitor: Monitor
    var tx: seq<Reply>
    var restarted: bool

    constructor (session: OtaSession, monitor: Monitor)
      ensures this.session == session && this.monitor == monitor
      ensures State() == Ble(IDLE, session.State(), monitor.State(), [], false)
    {
      this.session, this.monitor := session, monitor;
      active, total, written, expectCrc, expectSeq, nextProgMark := false, 0, 0, 0, 0, 0;
      tx, restarted := [], false;
    }

    function State(): Ble
      reads this, session, session.wr, session.flash, monitor
    {
      Ble(Xfer(active, total, written, expectCrc, expectSeq, nextProgMark),
          session.State(), monitor.State(), tx, restarted)
    }

    method Send(r: Reply)
      modifies `tx
      ensures tx == old(tx) + [r]
    {
      tx := tx + [r];
    }

    method Reset()
      modifies `active, `total, `written, `expectCrc, `expectSeq, `nextProgMark
      ensures Xfer(active, total, written, expectCrc, expectSeq, nextProgMark) == IDLE
    {
      active, total, written, expectCrc, expectSeq, nextProgMark := false, 0, 0, 0, 0, 0;
    }

    method OnCtrlWrite(data: seq<byte>, recovery: bool, begin: BeginIo, finish: FinishIo)
      modifies this, session, session.wr, session.flash, monitor
      ensures State() == CtrlWritten(old(State()), data, recovery, begin, finish)
    {
      if data == [] {
        return;
      }
      var buf, len := OtaHeader.CopyLine(data);
      var line := buf[..len];
      if OtaHeader.START <= line {
        OnStart(line[|OtaHeader.START|..], recovery, begin);
      } else if OtaHeader.FINISH <= line {
        OnFinish(finish);
      } else if OtaHeader.ABORT <= line {
        if !active {
          Send(ErrNoActive);
          return;
        }
        session.Abort();
        Reset();
        Send(OkAborted);
      } else {
        Send(ErrUnknown);
      }
    }

    method OnStart(args: seq<byte>, recovery: bool, begin: BeginIo)
      modifies this, session, session.wr, session.flash, monitor
      ensures State() == Started(old(State()), args, recovery, begin)
    {
      hide Opened, OtaHeader.ParseStart;
      if active {
        Send(ErrBusy);
        return;
      }
      match OtaHeader.ParseStart(args) {
        case BadFormat =>
          Send(ErrBadFmt);
        case Image(size, crc) =>
          if !recovery {
            Send(ErrForbidden);
            return;
          }
          Open(size, crc, begin);
      }
    }

    method Open(size: word, crc: bv32, begin: BeginIo)
      modifies this, session, session.wr, session.flash, monitor
      ensures State() == Opened(old(State()), size, crc, begin)
    {
      hide Begun;
      var err := session.Begin(size, crc, begin);
      if err != Ok {
        Send(ErrBegin);
        return;
      }
      active := true;
      total := size;
      written := 0;
      expectCrc := crc;
      expectSeq := 0;
      nextProgMark := PROG_STEP;
      monitor.ControlOk();
      Send(AckStart);
    }

    method OnFinish(finish: FinishIo)
      modifies this, session, session.wr, session.flash
      ensures State() == FinishAsked(old(State()), finish)
    {
      if !active {
        Send(ErrNoActive);
        return;
      }
      var err := session.Finish(finish);
      if err != Ok {
        Send(ErrFinish);
        Reset();
        return;
      }
      Send(OkRebooting);
      Reset();
      restarted := true;
    }

    method OnDataWrite(data: Buffer, writeOk: bool, finish: FinishIo)
      modifies this, session, session.wr, session.flash
      ensures State() == DataWritten(old(State()), data, writeOk, finish)
    {
      if !active || |data| < 6 {
        return;
      }
      var seqNo := RdLe32(data);
      var blen := RdLe16(data[4..]);
      if |data| != 6 + blen {
        return;
      }
      if seqNo != expectSeq {
        return;
      }
      if Add32(written, blen) > total {
        return;
      }
      var err := session.Write(Payload(data), writeOk);
      if err != Ok {
        Send(ErrWrite);
        session.Abort();
        Reset();
        return;
      }
      Count(blen);
      if written == total {
        Complete(finish);
      }
    }

    method Count(blen: word)
      modifies `expectSeq, `written, `nextProgMark, `tx
      ensures State() == Counted(old(State()), blen)
    {
      expectSeq := Add32(expectSeq, 1);
      written := Add32(written, blen);
      if written >= nextProgMark || written == total {
        Send(Prog(written, total));
        nextProgMark := Add32(nextProgMark, PROG_STEP);
      }
    }

    method Complete(finish: FinishIo)
      modifies this, session, session.wr, session.flash
      ensures State() == Completed(old(State()), finish)
    {
      var err := session.Finish(finish);
      if err != Ok {
        Send(ErrFinish);
        session.Abort();
        Reset();
        return;
      }
      Send(OkRebooting);
      Reset();
      restarted := true;
    }

    method OnDisconnect(finish: FinishIo)
      modifies this, session, session.wr, session.flash
      ensures State() == Disconnected(old(State()), finish)
    {
      if !active {
        return;
      }
      if written >= total && total > 0 {
        var err := session.Finish(finish);
        if err == Ok {
          restarted := true;
          return;
        }
        session.Abort();
      } else {
        session.Abort();
      }
      Reset();
    }
  }

  // ---- the two layers move in lockstep ----

  ghost predicate Lockstep(s: Ble) {
    && Consistent(s.ota)
    && s.bo.active == s.ota.s.active
    && (s.bo.active ==> Mirrored(s) && !s.restarted)
  }

  /** Same counters in both layers, and strictly short of the image. */
  predicate Mirrored(s: Ble) {
    && s.bo.written == s.ota.s.written < s.bo.total == s.ota.s.expected
    && s.bo.expectCrc == s.ota.s.crcExpect
    && s.bo.expectSeq <= s.bo.written
  }

  /** A transfer begins only in recovery, and latches the monitor. */
  lemma StartedLockstep(s: Ble, args: seq<byte>, recovery: bool, io: BeginIo)
    requires Lockstep(s) && !s.restarted
    ensures var s' := Started(s, args, recovery, io);
            && Lockstep(s') && !s'.restarted
            && (s'.bo.active && !s.bo.active ==> recovery && s'.mon.done)
            && (s'.bo.active != s.bo.active || s'.bo == s.bo)
  {
    hide OtaHeader.ParseStart, Busy;
    match OtaHeader.ParseStart(args)
    case BadFormat =>
    case Image(size, crc) => BegunInv(s.ota, size, crc, io);
  }

  /** FINISH never succeeds: a complete image has already been finalised by its last frame. */
  lemma FinishNeverSucceeds(s: Ble, io: FinishIo)
    requires Lockstep(s) && !s.restarted
    ensures var s' := FinishAsked(s, io);
            && Lockstep(s') && !s'.restarted && !s'.bo.active
            && s'.tx == s.tx + [if s.bo.active then ErrFinish else ErrNoActive]
            && (s.bo.active ==> s'.ota.dev.log == s.ota.dev.log + [Call.Abort(s.ota.s.wr.handle)])
  {
    hide Finished;
    if s.bo.active {
      FinishedEffect(s.ota, io);
    }
  }

  lemma AbortLockstep(s: Ble)
    requires Lockstep(s) && !s.restarted
    ensures Lockstep(AbortAsked(s)) && !AbortAsked(s).restarted && !AbortAsked(s).bo.active
  {
    hide Aborted;
    AbortedInv(s.ota);
  }

  /** Neither does a disconnect: it always aborts what is active, whatever the finish would answer. */
  lemma DisconnectNeverFinishes(s: Ble, io: FinishIo)
    requires Lockstep(s) && !s.restarted
    ensures var s' := Disconnected(s, io);
            && Lockstep(s') && !s'.restarted && !s'.bo.active && s'.tx == s.tx
            && s'.ota.dev.log == s.ota.dev.log + if s.bo.active then [Call.Abort(s.ota.s.wr.handle)] else []
  {
    hide Finished;
    AbortedInv(s.ota);
  }

  /** An empty frame reaches the session and kills the transfer. */
  lemma EmptyFrameAborts(s: Ble, data: Buffer, writeOk: bool, io: FinishIo)
    requires Lockstep(s) && Takes(s.bo, data) && |data| == 6
    ensures DataWritten(s, data, writeOk, io) ==
            Said(s, ErrWrite).(bo := IDLE, ota := Aborted(s.ota))
  {
  }

  lemma InBounds(s: Ble, data: Buffer)
    requires Lockstep(s) && Takes(s.bo, data)
    ensures |Payload(data)| == RdLe16(data[4..])
    ensures s.ota.s.active && s.bo.written + |Payload(data)| <= s.bo.total <= 0xFFFF_0000
    ensures Mirrored(s)
  {
  }

  /** Finalising on the last frame: reboot exactly when the image is sound and the device switches. */
  lemma CompletedEffect(s: Ble, io: FinishIo)
    requires Consistent(s.ota) && s.ota.s.active && !s.restarted
    ensures var s' := Completed(s, io);
            && Lockstep(s') && !s'.bo.active
            && (s'.restarted <==> Sound(s.ota) && io.endOk && io.bootOk)
            && Flashed(s'.ota.dev.log) == Flashed(s.ota.dev.log)
            && s'.ota.dev.log == Finished(s.ota, io).0.dev.log
  {
    hide Finished, Flashed, Consistent, Sound;
    FinishedEffect(s.ota, io);
  }

  /** The session's own overflow check stays silent, and neither counter wraps. */
  lemma SessionNeverOverflows(s: Ble, data: Buffer, writeOk: bool)
    requires Lockstep(s) && Takes(s.bo, data) && |data| > 6
    ensures Written(s.ota, Payload(data), writeOk).1 == (if writeOk then Ok else Fail)
    ensures Add32(s.bo.written, |Payload(data)|) == s.bo.written + |Payload(data)|
    ensures Add32(s.bo.expectSeq, 1) == s.bo.expectSeq + 1
  {
    hide Written, Consistent;
    InBounds(s, data);
    WrittenEffect(s.ota, Payload(data), writeOk);
  }

  /** One frame, told from the device's record. */
  lemma TakenFrame(s: Ble, data: Buffer, writeOk: bool, io: FinishIo)
    requires Lockstep(s) && Takes(s.bo, data) && |data| > 6
    ensures var s' := DataWritten(s, data, writeOk, io);
            && Lockstep(s')
            && Flashed(s'.ota.dev.log) == Flashed(s.ota.dev.log) + (if writeOk then Payload(data) else [])
            && s'.bo.active == (writeOk && s.bo.written + |Payload(data)| < s.bo.total)
            && (s'.bo.active ==> s'.bo.expectSeq == s.bo.expectSeq + 1 && s'.bo.total == s.bo.total
                                 && s'.bo.expectCrc == s.bo.expectCrc)
  {
    hide Written, Completed, Flashed, Consistent, Aborted, Payload, Said;
    var payload := Payload(data);
    InBounds(s, data);
    WrittenEffect(s.ota, payload, writeOk);
    var ota := Written(s.ota, payload, writeOk).0;
    if !writeOk {
      AbortedEffect(ota);
      SaidFrame(s, ErrWrite);
    } else {
      var s1 := Counted(s.(ota := ota), |payload|);
      CountedFrame(s.(ota := ota), |payload|);
      if s1.bo.written == s1.bo.total {
        CompletedEffect(s1, io);
      }
    }
  }

  /** A taken frame restarts the device exactly when it is the last, the checksum fits and the device switches. */
  lemma TakenFrameRestarts(s: Ble, data: Buffer, writeOk: bool, io: FinishIo)
    requires Lockstep(s) && Takes(s.bo, data) && |data| > 6
    ensures DataWritten(s, data, writeOk, io).restarted <==>
            writeOk && s.bo.written + |Payload(data)| == s.bo.total && io.endOk && io.bootOk
            && Crc32.ChecksumFits(s.bo.expectCrc, Flashed(s.ota.dev.log) + Payload(data))
  {
    hide Written, Completed, Flashed, Consistent, Aborted, Payload, Said, Sound;
    var payload := Payload(data);
    InBounds(s, data);
    WrittenEffect(s.ota, payload, writeOk);
    var ota := Written(s.ota, payload, writeOk).0;
    SaidFrame(s, ErrWrite);
    if writeOk {
      var s1 := Counted(s.(ota := ota), |payload|);
      CountedFrame(s.(ota := ota), |payload|);
      if s1.bo.written == s1.bo.total {
        CompletedEffect(s1, io);
        SoundWhenComplete(ota);
      }
    }
  }

  lemma SoundWhenComplete(o: Ota)
    requires Consistent(o) && o.s.active && o.s.written == o.s.expected
    ensures Sound(o) <==> Crc32.ChecksumFits(o.s.crcExpect, Flashed(o.dev.log))
  {
  }

  lemma SaidFrame(s: Ble, r: Reply)
    ensures Said(s, r).bo == s.bo && Said(s, r).ota == s.ota && Said(s, r).restarted == s.restarted
  {
  }

  lemma CountedFrame(s: Ble, len: word)
    ensures var t := Counted(s, len);
            && t.ota == s.ota && t.restarted == s.restarted
            && t.bo.(nextMark := 0) == Progressed(s.bo, len).(nextMark := 0)
  {
  }

  lemma FrameLockstep(s: Ble, data: Buffer, writeOk: bool, io: FinishIo)
    requires Lockstep(s) && !s.restarted
    ensures Lockstep(DataWritten(s, data, writeOk, io))
    ensures DataWritten(s, data, writeOk, io).bo.active ==> s.bo.active
  {
    hide DataWritten, Takes;
    if Takes(s.bo, data) {
      if |data| > 6 {
        TakenFrame(s, data, writeOk, io);
        TakesActive(s, data);
      } else {
        TakesActive(s, data);
        EmptyFrameAborts(s, data, writeOk, io);
        AbortedEffect(s.ota);
      }
    } else {
      Untaken(s, data, writeOk, io);
    }
  }

  lemma TakesActive(s: Ble, data: Buffer)
    requires Takes(s.bo, data)
    ensures s.bo.active && |data| >= 6
  {
  }

  lemma Untaken(s: Ble, data: Buffer, writeOk: bool, io: FinishIo)
    requires !Takes(s.bo, data)
    ensures DataWritten(s, data, writeOk, io) == s
  {
  }

  // ---- what each control line and each frame does, and what it is answered ----

  /** Nothing but one more reply. */
  predicate OnlySays(s: Ble, t: Ble, r: Reply) {
    t == s.(tx := s.tx + [r])
  }

  /** The transfer is gone, its handle given back, one reply sent, nothing else changed. */
  predicate Dropping(s: Ble, t: Ble, r: Reply) {
    && t.bo == IDLE && !t.ota.s.active && t.mon == s.mon && !t.restarted
    && t.ota.dev.log == s.ota.dev.log + [Call.Abort(s.ota.s.wr.handle)]
    && t.tx == s.tx + [r]
  }

  /** Which control word a line begins with, spelled out. */
  lemma LineWords(data: seq<byte>)
    ensures OtaHeader.START <= OtaHeader.CtrlLine(data) <==> OtaHeader.Begins(data, Ascii("BL_OTA START"))
    ensures OtaHeader.FINISH <= OtaHeader.CtrlLine(data) <==> OtaHeader.Begins(data, Ascii("BL_OTA FINISH"))
    ensures OtaHeader.ABORT <= OtaHeader.CtrlLine(data) <==> OtaHeader.Begins(data, Ascii("BL_OTA ABORT"))
    ensures OtaHeader.Begins(data, Ascii("BL_OTA START")) ==> !OtaHeader.Begins(data, Ascii("BL_OTA FINISH"))
    ensures OtaHeader.Begins(data, Ascii("BL_OTA START")) ==> !OtaHeader.Begins(data, Ascii("BL_OTA ABORT"))
    ensures OtaHeader.Begins(data, Ascii("BL_OTA FINISH")) ==> !OtaHeader.Begins(data, Ascii("BL_OTA ABORT"))
  {
    OtaHeader.ControlWords();
    hide Ascii, OtaHeader.CtrlLine, OtaHeader.Begins;
    OtaHeader.LineBegins(data, OtaHeader.START);
    OtaHeader.LineBegins(data, OtaHeader.FINISH);
    OtaHeader.LineBegins(data, OtaHeader.ABORT);
    var line := OtaHeader.CtrlLine(data);
    assert OtaHeader.START <= line ==> line[7] == 83;
    assert OtaHeader.FINISH <= line ==> line[7] == 70;
    assert OtaHeader.ABORT <= line ==> line[7] == 65;
  }

  /** ABORT drops an active transfer and says so; without one it only complains. */
  lemma AbortLine(s: Ble, data: seq<byte>, recovery: bool, begin: BeginIo, finish: FinishIo)
    requires Lockstep(s) && !s.restarted && OtaHeader.Begins(data, Ascii("BL_OTA ABORT"))
    ensures var t := CtrlWritten(s, data, recovery, begin, finish);
            if s.bo.active then Dropping(s, t, OkAborted) else OnlySays(s, t, ErrNoActive)
  {
    hide Started, FinishAsked, OtaHeader.CtrlLine, OtaHeader.Begins, Ascii;
    LineWords(data);
    assert data != [] by {
      NothingBegins();
    }
  }

  lemma NothingBegins()
    ensures !OtaHeader.Begins([], Ascii("BL_OTA ABORT")) && !OtaHeader.Begins([], Ascii("BL_OTA FINISH"))
    ensures !OtaHeader.Begins([], Ascii("BL_OTA START"))
  {
  }

  /** FINISH does the same to a transfer, with an error: it is always short of its image. */
  lemma FinishLine(s: Ble, data: seq<byte>, recovery: bool, begin: BeginIo, finish: FinishIo)
    requires Lockstep(s) && !s.restarted && OtaHeader.Begins(data, Ascii("BL_OTA FINISH"))
    ensures var t := CtrlWritten(s, data, recovery, begin, finish);
            if s.bo.active then Dropping(s, t, ErrFinish) else OnlySays(s, t, ErrNoActive)
  {
    hide Started, AbortAsked, Finished, OtaHeader.CtrlLine, OtaHeader.Begins, Ascii, Consistent;
    LineWords(data);
    NothingBegins();
    if s.bo.active {
      FinishNeverSucceeds(s, finish);
    }
  }

  /** What START says, for every state and every argument; a refused one changes nothing else. */
  lemma StartLine(s: Ble, data: seq<byte>, recovery: bool, begin: BeginIo, finish: FinishIo)
    requires Lockstep(s) && !s.restarted && OtaHeader.Begins(data, Ascii("BL_OTA START"))
    ensures |OtaHeader.CtrlLine(data)| >= 12
    ensures var t := CtrlWritten(s, data, recovery, begin, finish);
            match OtaHeader.ParseStart(OtaHeader.CtrlLine(data)[12..])
            case BadFormat => OnlySays(s, t, if s.bo.active then ErrBusy else ErrBadFmt)
            case Image(size, crc) =>
              if s.bo.active then OnlySays(s, t, ErrBusy)
              else if !recovery then OnlySays(s, t, ErrForbidden)
              else if !(begin.slot.SlotOf? && size <= begin.slot.size && begin.beginOk) then
                t.bo == s.bo && t.mon == s.mon && t.ota.dev == s.ota.dev && !t.ota.s.active && !t.restarted
                && t.tx == s.tx + [ErrBegin]
              else
                t.bo.active && t.bo.total == size && t.bo.expectCrc == crc && t.bo.written == 0 && t.bo.expectSeq == 0
                && t.mon.done && !t.restarted && t.tx == s.tx + [AckStart]
                && t.ota.dev.log == s.ota.dev.log + [Call.Begin(s.ota.dev.handles + 1, size)]
  {
    hide FinishAsked, AbortAsked, OtaHeader.CtrlLine, OtaHeader.Begins, OtaHeader.ParseStart, Ascii, Consistent;
    LineWords(data);
    NothingBegins();
    match OtaHeader.ParseStart(OtaHeader.CtrlLine(data)[12..])
    case BadFormat =>
    case Image(size, crc) =>
      ImagesHaveSize(OtaHeader.CtrlLine(data)[12..]);
      BeginAnswers(s.ota, size, crc, begin);
  }

  lemma ImagesHaveSize(args: seq<byte>)
    ensures OtaHeader.ParseStart(args).Image? ==> OtaHeader.ParseStart(args).size != 0
  {
  }

  /** Any other line is only complained about; an empty write is not even that. */
  lemma OtherLine(s: Ble, data: seq<byte>, recovery: bool, begin: BeginIo, finish: FinishIo)
    requires !OtaHeader.Begins(data, Ascii("BL_OTA START")) && !OtaHeader.Begins(data, Ascii("BL_OTA FINISH"))
    requires !OtaHeader.Begins(data, Ascii("BL_OTA ABORT"))
    ensures var t := CtrlWritten(s, data, recovery, begin, finish);
            if data == [] then t == s else OnlySays(s, t, ErrUnknown)
  {
    hide Started, FinishAsked, AbortAsked, OtaHeader.CtrlLine, OtaHeader.Begins, Ascii;
    LineWords(data);
  }

  /** The next 256 KiB mark is reached with this frame. */
  predicate ReachesMark(s: Ble, data: Buffer)
    requires |data| >= 6
  {
    s.bo.written + |Payload(data)| >= s.bo.nextMark
  }

  /**
   * What a frame is answered: nothing unless it is taken; ERR WRITE if the flash
   * refuses it; progress at the marks and at the end; and on the last one OK
   * REBOOTING exactly if the device restarts, ERR FINISH otherwise.
   */
  lemma FrameAnswers(s: Ble, data: Buffer, writeOk: bool, io: FinishIo)
    requires Lockstep(s) && !s.restarted
    ensures !Takes(s.bo, data) ==> DataWritten(s, data, writeOk, io) == s
    ensures var t := DataWritten(s, data, writeOk, io);
            Takes(s.bo, data) ==>
              t.tx == s.tx + (
                if |data| == 6 || !writeOk then [ErrWrite]
                else
                  var done := s.bo.written + |Payload(data)|;
                  if done < s.bo.total then (if ReachesMark(s, data) then [Prog(done, s.bo.total)] else [])
                  else [Prog(s.bo.total, s.bo.total), if t.restarted then OkRebooting else ErrFinish])
  {
    hide Takes, Payload, Lockstep, Written;
    if Takes(s.bo, data) {
      TakesActive(s, data);
      if |data| == 6 {
        hide DataWritten;
        EmptyFrameAborts(s, data, writeOk, io);
      } else {
        InBounds(s, data);
        SessionNeverOverflows(s, data, writeOk);
        TakenAnswers(s, data, writeOk, io);
      }
    } else {
      hide DataWritten;
      Untaken(s, data, writeOk, io);
    }
  }

  lemma TakenAnswers(s: Ble, data: Buffer, writeOk: bool, io: FinishIo)
    requires Takes(s.bo, data) && |data| > 6 && !s.restarted
    requires Written(s.ota, Payload(data), writeOk).1 == (if writeOk then Ok else Fail)
    requires Add32(s.bo.written, |Payload(data)|) == s.bo.written + |Payload(data)| <= s.bo.total
    ensures var t := DataWritten(s, data, writeOk, io); var done := s.bo.written + |Payload(data)|;
            t.tx == s.tx + (
              if !writeOk then [ErrWrite]
              else if done < s.bo.total then (if ReachesMark(s, data) then [Prog(done, s.bo.total)] else [])
              else [Prog(s.bo.total, s.bo.total), if t.restarted then OkRebooting else ErrFinish])
  {
    hide Takes, Payload, Written, Finished, Aborted;
  }

  // ---- whole runs of one boot ----

  datatype Event =
    | Ctrl(ctrl: seq<byte>, recovery: bool, begin: BeginIo, ctrlFinish: FinishIo)
    | Data(data: Buffer, writeOk: bool, dataFinish: FinishIo)
    | LinkLost(lostFinish: FinishIo)

  function Step(s: Ble, e: Event): Ble {
    if s.restarted then s
    else
      match e
      case Ctrl(data, recovery, begin, finish) => CtrlWritten(s, data, recovery, begin, finish)
      case Data(data, writeOk, finish) => DataWritten(s, data, writeOk, finish)
      case LinkLost(finish) => Disconnected(s, finish)
  }

  function Run(s: Ble, evs: seq<Event>): Ble
    decreases |evs|
  {
    if evs == [] then s else Run(Step(s, evs[0]), evs[1..])
  }

  const BOOT := Ble(IDLE, FRESH, ARMED, [], false)

  lemma CtrlLockstep(s: Ble, data: seq<byte>, recovery: bool, begin: BeginIo, finish: FinishIo)
    requires Lockstep(s) && !s.restarted
    ensures var s' := CtrlWritten(s, data, recovery, begin, finish);
            && Lockstep(s') && !s'.restarted
            && (s'.bo.active && !s.bo.active ==> recovery && s'.mon.done)
  {
    hide Lockstep, Started, FinishAsked, AbortAsked, OtaHeader.CtrlLine;
    var line := OtaHeader.CtrlLine(data);
    if OtaHeader.START <= line {
      StartedLockstep(s, line[|OtaHeader.START|..], recovery, begin);
    }
    FinishNeverSucceeds(s, finish);
    AbortLockstep(s);
    SaidLockstep(s, ErrUnknown);
  }

  lemma SaidLockstep(s: Ble, r: Reply)
    requires Lockstep(s)
    ensures Lockstep(Said(s, r))
  {
  }

  lemma StepLockstep(s: Ble, e: Event)
    requires Lockstep(s)
    ensures Lockstep(Step(s, e))
    ensures Step(s, e).bo.active && !s.bo.active ==> e.Ctrl? && e.recovery && Step(s, e).mon.done
  {
    hide Lockstep, CtrlWritten, DataWritten, Disconnected;
    if !s.restarted {
      match e
      case Ctrl(data, recovery, begin, finish) => CtrlLockstep(s, data, recovery, begin, finish);
      case Data(data, writeOk, finish) => FrameLockstep(s, data, writeOk, finish);
      case LinkLost(finish) => DisconnectNeverFinishes(s, finish);
    }
  }

  /**
   * Over every sequence of control lines, frames and disconnects: both layers
   * agree, an active transfer is short of its image, and an idle or restarted
   * device holds no open flash handle and never misused one.
   */
  lemma {:induction false} LayersAgree(s: Ble, evs: seq<Event>)
    requires Lockstep(s)
    ensures Lockstep(Run(s, evs))
    ensures var t := Run(s, evs);
            && Disciplined(t.ota.dev.log)
            && (!t.bo.active || t.restarted ==> Open(t.ota.dev.log) == {})
    decreases |evs|
  {
    hide Step, Disciplined, Open;
    if evs != [] {
      StepLockstep(s, evs[0]);
      LayersAgree(Step(s, evs[0]), evs[1..]);
    }
  }

  lemma BootLockstep()
    ensures Lockstep(BOOT)
  {
    FreshInv();
  }

  /** The device restarts only on a last frame, with the whole announced image on the flash and its CRC right. */
  lemma RestartMeansSwitched(s: Ble, e: Event)
    requires Lockstep(s) && !s.restarted && Step(s, e).restarted
    ensures e.Data? && s.bo.active && Step(s, e).tx != [] && Step(s, e).tx[|Step(s, e).tx| - 1] == OkRebooting
    ensures var image := Flashed(s.ota.dev.log) + Payload(e.data);
            && Flashed(Step(s, e).ota.dev.log) == image && |image| == s.bo.total
            && Crc32.ChecksumFits(s.bo.expectCrc, image)
    ensures Switches(Step(s, e).ota.dev.log) == Switches(s.ota.dev.log) + 1
  {
    hide Flashed, Switches, Consistent, Written, Finished, Crc32.Update, Lockstep;
    match e
    case Ctrl(data, recovery, begin, finish) => CtrlLockstep(s, data, recovery, begin, finish);
    case LinkLost(finish) => DisconnectNeverFinishes(s, finish);
    case Data(data, writeOk, finish) => LastFrame(s, data, writeOk, finish);
  }

  lemma LastFrame(s: Ble, data: Buffer, writeOk: bool, io: FinishIo)
    requires Lockstep(s) && !s.restarted && DataWritten(s, data, writeOk, io).restarted
    ensures s.bo.active && |data| >= 6
    ensures var s' := DataWritten(s, data, writeOk, io); var image := Flashed(s.ota.dev.log) + Payload(data);
            && s'.tx != [] && s'.tx[|s'.tx| - 1] == OkRebooting
            && Flashed(s'.ota.dev.log) == image && |image| == s.bo.total
            && Crc32.ChecksumFits(s.bo.expectCrc, image)
            && Switches(s'.ota.dev.log) == Switches(s.ota.dev.log) + 1
  {
    hide Flashed, Switches, Consistent, Written, Finished, Crc32.Update;
    assert Takes(s.bo, data);
    var payload := Payload(data);
    InBounds(s, data);
    assert payload != [] by {
      if payload == [] {
        EmptyFrameAborts(s, data, writeOk, io);
      }
    }
    WrittenEffect(s.ota, payload, writeOk);
    var ota := Written(s.ota, payload, writeOk).0;
    var h := s.ota.s.wr.handle;
    FinishedEffect(ota, io);
    Appended(s.ota.dev.log, Call.Write(h, payload));
    Appended(ota.dev.log, Call.End(h, true));
    Appended(ota.dev.log + [Call.End(h, true)], SetBoot(true));
    assert ota.dev.log + [Call.End(h, true)] + [SetBoot(true)] == ota.dev.log + [Call.End(h, true), SetBoot(true)];
  }

  // ---- progress ----

  /** Progress reports since the last START that was acknowledged. */
  function ProgsSince(tx: seq<Reply>): nat {
    if tx == [] || tx[|tx| - 1] == AckStart then 0
    else ProgsSince(tx[..|tx| - 1]) + if tx[|tx| - 1].Prog? then 1 else 0
  }

  lemma OneMoreReply(tx: seq<Reply>, r: Reply)
    ensures ProgsSince(tx + [r]) == if r == AckStart then 0 else ProgsSince(tx) + if r.Prog? then 1 else 0
  {
    assert (tx + [r])[..|tx|] == tx;
  }

  /** The next mark lies one step beyond what was reported; images near 2^32 bytes would wrap it. */
  predicate OnPace(s: Ble) {
    s.bo.active && s.bo.total <= 0xFFFC_0000 ==>
      var n := ProgsSince(s.tx);
      s.bo.nextMark == 0x4_0000 * (n + 1) && 0x4_0000 * n <= s.bo.written < 0x4_0000 * (n + 1)
  }

  lemma FrameOnPace(s: Ble, data: Buffer, writeOk: bool, io: FinishIo)
    requires Lockstep(s) && !s.restarted && OnPace(s)
    ensures OnPace(DataWritten(s, data, writeOk, io))
  {
    FrameLockstep(s, data, writeOk, io);
    hide Takes, DataWritten, Lockstep, ProgsSince;
    var t := DataWritten(s, data, writeOk, io);
    if !Takes(s.bo, data) {
      Untaken(s, data, writeOk, io);
    } else if t.bo.active && t.bo.total <= 0xFFFC_0000 {
      FramePaced(s, data, writeOk, io);
      MarkReached(s, data);
      hide ReachesMark, Payload;
      NextPace(ProgsSince(s.tx), s.bo.written, s.bo.nextMark, |Payload(data)|);
    }
  }

  lemma MarkReached(s: Ble, data: Buffer)
    requires |data| >= 6
    ensures ReachesMark(s, data) <==> s.bo.written + |Payload(data)| >= s.bo.nextMark
  {
  }

  lemma NextPace(n: nat, written: word, mark: word, len: nat)
    requires mark == 0x4_0000 * (n + 1) && 0x4_0000 * n <= written < 0x4_0000 * (n + 1)
    requires len <= 0xFFF9 && written + len < 0xFFFC_0000
    ensures written + len < 0x4_0000 * (n + 2)
    ensures written + len >= mark ==> Add32(mark, 0x4_0000) == 0x4_0000 * (n + 2)
  {
  }

  lemma FramePaced(s: Ble, data: Buffer, writeOk: bool, io: FinishIo)
    requires Lockstep(s) && !s.restarted && Takes(s.bo, data) && DataWritten(s, data, writeOk, io).bo.active
    ensures |data| > 6 && s.bo.active && |Payload(data)| <= 0xFFF9
    ensures var t := DataWritten(s, data, writeOk, io); var reaches := ReachesMark(s, data);
            && t.bo.total == s.bo.total && t.bo.written == s.bo.written + |Payload(data)| < t.bo.total
            && t.bo.nextMark == (if reaches then Add32(s.bo.nextMark, 0x4_0000) else s.bo.nextMark)
            && ProgsSince(t.tx) == ProgsSince(s.tx) + (if reaches then 1 else 0)
  {
    hide ProgsSince;
    TakesActive(s, data);
    FrameAnswers(s, data, writeOk, io);
    if |data| == 6 {
      EmptyFrameAborts(s, data, writeOk, io);
    } else {
      SessionNeverOverflows(s, data, writeOk);
      InBounds(s, data);
      FrameCounters(s, data, writeOk, io);
      hide Takes, DataWritten, Lockstep, ReachesMark;
      OneMoreReply(s.tx, Prog(s.bo.written + |Payload(data)|, s.bo.total));
      assert s.tx + [] == s.tx;
    }
  }

  lemma FrameCounters(s: Ble, data: Buffer, writeOk: bool, io: FinishIo)
    requires Takes(s.bo, data) && |data| > 6 && DataWritten(s, data, writeOk, io).bo.active
    requires Written(s.ota, Payload(data), writeOk).1 == (if writeOk then Ok else Fail)
    requires Add32(s.bo.written, |Payload(data)|) == s.bo.written + |Payload(data)| <= s.bo.total
    ensures var t := DataWritten(s, data, writeOk, io);
            && writeOk && t.bo.total == s.bo.total && t.bo.written == s.bo.written + |Payload(data)| < t.bo.total
            && t.bo.nextMark == (if ReachesMark(s, data) then Add32(s.bo.nextMark, 0x4_0000) else s.bo.nextMark)
  {
    hide Takes, Payload, Written, Finished, Aborted;
  }

  lemma StepOnPace(s: Ble, e: Event)
    requires Lockstep(s) && OnPace(s)
    ensures OnPace(Step(s, e))
  {
    if !s.restarted {
      match e
      case Data(data, writeOk, finish) => FrameOnPace(s, data, writeOk, finish);
      case LinkLost(finish) => DisconnectNeverFinishes(s, finish);
      case Ctrl(data, recovery, begin, finish) => LineOnPace(s, data, recovery, begin, finish);
    }
  }

  lemma LineOnPace(s: Ble, data: seq<byte>, recovery: bool, begin: BeginIo, finish: FinishIo)
    requires Lockstep(s) && !s.restarted && OnPace(s)
    ensures OnPace(CtrlWritten(s, data, recovery, begin, finish))
  {
    hide OtaHeader.CtrlLine, OtaHeader.ParseStart, Consistent, ProgsSince, Begun, Finished, Aborted;
    OneMoreReply(s.tx, ErrBusy);
    OneMoreReply(s.tx, ErrUnknown);
    OneMoreReply(s.tx, AckStart);
  }

  /** Over every run: an active transfer has reported exactly one mark for every 256 KiB it has written. */
  lemma {:induction false} OneReportPerMark(s: Ble, evs: seq<Event>)
    requires Lockstep(s) && OnPace(s)
    ensures var t := Run(s, evs);
            t.bo.active && t.bo.total <= 0xFFFC_0000 ==> ProgsSince(t.tx) == t.bo.written / 0x4_0000
    decreases |evs|
  {
    hide Lockstep, Step, ProgsSince;
    if evs != [] {
      StepLockstep(s, evs[0]);
      StepOnPace(s, evs[0]);
      OneReportPerMark(Step(s, evs[0]), evs[1..]);
    }
  }
}
