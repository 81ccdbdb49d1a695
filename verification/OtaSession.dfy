/** One OTA transfer: the partition writer and, over it, bounds, accounting and CRC. */
module OtaSession {
  import opened Bytes
  import opened OtaFlash
  import Crc32

  // ---- environment's answers ----

  /** slot is the size of the update partition, if there is one. */
  datatype BeginIo = BeginIo(slot: Slot, beginOk: bool)
  datatype Slot = NoSlot | SlotOf(size: SlotSize)
  datatype FinishIo = FinishIo(endOk: bool, bootOk: bool)

  /** Every app partition fits in 32 bits with room for one more buffer (the real ones are 0x200000). */
  type SlotSize = x: word | x <= 0xFFFF_0000

  /** What one call can carry: 16-bit lengths from BLE, 4096-byte blocks from TCP. */
  type Buffer = b: seq<byte> | |b| <= 0xFFFF

  // ---- the writer ----

  datatype Writer = Writer(handle: nat, dst: bool)

  function WriterBegin(d: Dev, total: word, io: BeginIo): (Dev, Writer, Esp) {
    match io.slot
    case NoSlot => (d, Writer(0, false), NotFound)
    case SlotOf(size) =>
      if total > size then (d, Writer(0, true), InvalidSize)
      else if !io.beginOk then (d, Writer(0, true), Fail)
      else (Dev(d.log + [Begin(d.handles + 1, total)], d.handles + 1), Writer(d.handles + 1, true), Ok)
  }

  function WriterWrite(d: Dev, w: Writer, data: seq<byte>, ok: bool): (Dev, Esp) {
    if w.handle == 0 || data == [] then (d, InvalidArg)
    else if ok then (Record(d, Write(w.handle, data)), Ok)
    else (Record(d, WriteRefused(w.handle)), Fail)
  }

  function WriterEnd(d: Dev, w: Writer, io: FinishIo): (Dev, Esp) {
    if w.handle == 0 || !w.dst then (d, InvalidState)
    else if !io.endOk then (Record(d, End(w.handle, false)), Fail)
    else (Record(Record(d, End(w.handle, true)), SetBoot(io.bootOk)), if io.bootOk then Ok else Fail)
  }

  function WriterAbort(d: Dev, w: Writer): Dev {
    if w.handle == 0 then d else Record(d, Abort(w.handle))
  }

  class OtaWriter {
    var handle: nat
    var dst: bool

    constructor ()
      ensures State() == Writer(0, false)
    {
      handle, dst := 0, false;
    }

    function State(): Writer
      reads this
    {
      Writer(handle, dst)
    }

    method Begin(flash: Flash, total: word, io: BeginIo) returns (e: Esp)
      modifies this, flash
      ensures (flash.State(), State(), e) == WriterBegin(old(flash.State()), total, io)
    {
      handle := 0;
      dst := io.slot.SlotOf?;
      if !dst {
        return NotFound;
      }
      if total > io.slot.size {
        return InvalidSize;
      }
      var h;
      e, h := flash.OtaBegin(total, io.beginOk);
      handle := h;
    }

    method Write(flash: Flash, data: seq<byte>, ok: bool) returns (e: Esp)
      modifies flash
      ensures (flash.State(), e) == WriterWrite(old(flash.State()), State(), data, ok)
    {
      if handle == 0 || data == [] {
        return InvalidArg;
      }
      e := flash.OtaWrite(handle, data, ok);
    }

    method End(flash: Flash, io: FinishIo) returns (e: Esp)
      modifies flash
      ensures (flash.State(), e) == WriterEnd(old(flash.State()), State(), io)
    {
      if handle == 0 || !dst {
        return InvalidState;
      }
      e := flash.OtaEnd(handle, io.endOk);
      if e != Ok {
        return;
      }
      e := flash.SetBootPartition(io.bootOk);
    }

    method Abort(flash: Flash)
      modifies this, flash
      ensures flash.State() == WriterAbort(old(flash.State()), old(State())) && State() == Writer(0, false)
    {
      if handle != 0 {
        flash.OtaAbort(handle);
      }
      handle := 0;
      dst := false;
    }
  }

  // ---- the session ----

  const YIELD_BYTES: word := 0x1_0000

  datatype Session = Session(
    active: bool, wr: Writer, expected: word, written: word,
    crcExpect: bv32, crcRunning: bv32, sinceYield: word)

  const ZEROED := Session(false, Writer(0, false), 0, 0, 0, 0, 0)

  /** A session and the device it writes to. */
  datatype Ota = Ota(s: Session, dev: Dev)

  function Begun(o: Ota, total: word, crc: bv32, io: BeginIo): (Ota, Esp) {
    if total == 0 then (o, InvalidArg)
    else if o.s.active then (o, InvalidState)
    else
      var (dev, wr, e) := WriterBegin(o.dev, total, io);
      if e != Ok then (Ota(ZEROED.(wr := wr), dev), e)
      else (Ota(Session(true, wr, total, 0, crc, 0, 0), dev), Ok)
  }

  function Written(o: Ota, data: Buffer, ok: bool): (Ota, Esp) {
    if !o.s.active || data == [] then (o, InvalidArg)
    else if Add32(o.s.written, |data|) > o.s.expected then (o, InvalidSize)
    else
      var (dev, e) := WriterWrite(o.dev, o.s.wr, data, ok);
      if e != Ok then (o.(dev := dev), e)
      else
        var since := Add32(o.s.sinceYield, |data|);
        (Ota(o.s.(written := Add32(o.s.written, |data|),
                  crcRunning := Crc32.Update(o.s.crcRunning, data),
                  sinceYield := if since >= YIELD_BYTES then 0 else since), dev), Ok)
  }

  /** Give the handle back and go idle. */
  function Dropped(o: Ota): Ota {
    Ota(o.s.(active := false, wr := Writer(0, false)), WriterAbort(o.dev, o.s.wr))
  }

  function Finished(o: Ota, io: FinishIo): (Ota, Esp) {
    if !o.s.active then (o, InvalidState)
    else if o.s.written != o.s.expected then (Dropped(o), InvalidSize)
    else if o.s.crcExpect != 0 && o.s.crcRunning != o.s.crcExpect then (Dropped(o), InvalidCrc)
    else
      var (dev, e) := WriterEnd(o.dev, o.s.wr, io);
      (Ota(o.s.(active := false), dev), e)
  }

  function Aborted(o: Ota): Ota {
    if !o.s.active then o else Dropped(o)
  }

  class OtaSession {
    var active: bool
    const wr: OtaWriter
    const flash: Flash
    var expected: word
    var written: word
    var crcExpect: bv32
    var crcRunning: bv32
    var sinceYield: word

    /** A session over memory that may still hold an old active flag. */
    constructor (flash: Flash, stale: bool)
      ensures this.flash == flash && fresh(wr)
      ensures State() == Ota(ZEROED.(active := stale), flash.State())
    {
      this.flash := flash;
      this.wr := new OtaWriter();
      active := stale;
      expected, written, crcExpect, crcRunning, sinceYield := 0, 0, 0, 0, 0;
    }

    function State(): Ota
      reads this, wr, flash
    {
      Ota(Session(active, wr.State(), expected, written, crcExpect, crcRunning, sinceYield), flash.State())
    }

    method Begin(total: word, crc: bv32, io: BeginIo) returns (e: Esp)
      modifies this, wr, flash
      ensures (State(), e) == Begun(old(State()), total, crc, io)
    {
      if total == 0 {
        return InvalidArg;
      }
      if active {
        return InvalidState;
      }
      expected, written, crcExpect, crcRunning, sinceYield := 0, 0, 0, 0, 0;
      e := wr.Begin(flash, total, io);
      if e != Ok {
        return;
      }
      active := true;
      expected := total;
      crcExpect := crc;
    }

    method Write(data: Buffer, ok: bool) returns (e: Esp)
      modifies this, wr, flash
      ensures (State(), e) == Written(old(State()), data, ok)
    {
      if !active || data == [] {
        return InvalidArg;
      }
      if Add32(written, |data|) > expected {
        return InvalidSize;
      }
      e := wr.Write(flash, data, ok);
      if e != Ok {
        return;
      }
      written := Add32(written, |data|);
      crcRunning := Crc32.UpdateRegister(crcRunning, data);
      sinceYield := Add32(sinceYield, |data|);
      if sinceYield >= YIELD_BYTES {
        sinceYield := 0;
      }
    }

    method Finish(io: FinishIo) returns (e: Esp)
      modifies this, wr, flash
      ensures (State(), e) == Finished(old(State()), io)
    {
      if !active {
        return InvalidState;
      }
      if written != expected {
        wr.Abort(flash);
        active := false;
        return InvalidSize;
      }
      if crcExpect != 0 && crcRunning != crcExpect {
        wr.Abort(flash);
        active := false;
        return InvalidCrc;
      }
      e := wr.End(flash, io);
      active := false;
    }

    method Abort()
      modifies this, wr, flash
      ensures State() == Aborted(old(State()))
    {
      if !active {
        return;
      }
      wr.Abort(flash);
      active := false;
    }
  }

  // ---- what every operation keeps ----

  /** The counters and the register are exactly what the device's record says. */
  ghost predicate Consistent(o: Ota) {
    && Disciplined(o.dev.log)
    && (forall h :: h in HandlesSeen(o.dev.log) ==> h <= o.dev.handles)
    && (if o.s.active then Busy(o) else Open(o.dev.log) == {})
  }

  ghost predicate Busy(o: Ota) {
    && o.s.wr.handle != 0 && o.s.wr.dst && Open(o.dev.log) == {o.s.wr.handle}
    && 0 < o.s.expected <= 0xFFFF_0000 && Announced(o.dev.log) == o.s.expected
    && |Flashed(o.dev.log)| == o.s.written <= o.s.expected
    && o.s.crcRunning == Crc32.Update(0, Flashed(o.dev.log))
  }

  const FRESH := Ota(ZEROED, Dev([], 0))

  lemma FreshInv()
    ensures Consistent(FRESH)
  {
  }

  lemma BegunInv(o: Ota, total: word, crc: bv32, io: BeginIo)
    requires Consistent(o)
    ensures Consistent(Begun(o, total, crc, io).0)
  {
    hide Open, Flashed, Announced, HandlesSeen, Disciplined;
    if total != 0 && !o.s.active {
      Appended(o.dev.log, Call.Begin(o.dev.handles + 1, total));
    }
  }

  /** Within Consistent the 32-bit sum in the bounds check is the true sum. */
  lemma WrittenInv(o: Ota, data: Buffer, ok: bool)
    requires Consistent(o)
    ensures Consistent(Written(o, data, ok).0)
    ensures o.s.active ==> Add32(o.s.written, |data|) == o.s.written + |data|
  {
    hide Open, Flashed, Announced, HandlesSeen, Disciplined, Crc32.Update;
    if o.s.active && data != [] && o.s.written + |data| <= o.s.expected {
      var h := o.s.wr.handle;
      Appended(o.dev.log, Call.Write(h, data));
      Appended(o.dev.log, WriteRefused(h));
      Crc32.UpdateComposes(0, Flashed(o.dev.log), data);
    }
  }

  /** A block within bounds reaches the flash exactly when the device takes it. */
  lemma WrittenEffect(o: Ota, data: Buffer, ok: bool)
    requires Consistent(o) && o.s.active && data != [] && o.s.written + |data| <= o.s.expected
    ensures var (o', e) := Written(o, data, ok);
            && Consistent(o') && e == (if ok then Ok else Fail) && o'.s.active && o'.s.wr == o.s.wr
            && o'.s.expected == o.s.expected && o'.s.crcExpect == o.s.crcExpect
            && o'.s.written == o.s.written + (if ok then |data| else 0)
            && Flashed(o'.dev.log) == Flashed(o.dev.log) + (if ok then data else [])
            && o'.dev.log == o.dev.log + [if ok then Call.Write(o.s.wr.handle, data) else WriteRefused(o.s.wr.handle)]
  {
    assert Busy(o);
    hide Consistent, Open, Flashed, Announced, HandlesSeen, Disciplined, Crc32.Update;
    WrittenInv(o, data, ok);
    Appended(o.dev.log, Call.Write(o.s.wr.handle, data));
    Appended(o.dev.log, WriteRefused(o.s.wr.handle));
  }

  /** What finishing does to a session, told from the bytes on the flash. */
  predicate Sound(o: Ota) {
    && |Flashed(o.dev.log)| == o.s.expected
    && Crc32.ChecksumFits(o.s.crcExpect, Flashed(o.dev.log))
  }

  /** The device calls a finish makes. */
  function FinishCalls(o: Ota, io: FinishIo): seq<Call> {
    var h := o.s.wr.handle;
    if !Sound(o) then [Call.Abort(h)]
    else if io.endOk then [Call.End(h, true), SetBoot(io.bootOk)]
    else [Call.End(h, false)]
  }

  lemma FinishedEffect(o: Ota, io: FinishIo)
    requires Consistent(o) && o.s.active
    ensures var (o', e) := Finished(o, io);
            && Consistent(o') && !o'.s.active && (e == Ok <==> Sound(o) && io.endOk && io.bootOk)
            && Flashed(o'.dev.log) == Flashed(o.dev.log)
            && o'.dev.log == o.dev.log + FinishCalls(o, io)
  {
    hide Finished, Consistent, FinishCalls, Flashed;
    FinishedInv(o, io);
    FinishedCalls(o, io);
    FinishKeepsBytes(o, io);
  }

  lemma FinishedCalls(o: Ota, io: FinishIo)
    requires Consistent(o) && o.s.active
    ensures var (o', e) := Finished(o, io);
            && (e == Ok <==> Sound(o) && io.endOk && io.bootOk)
            && o'.dev.log == o.dev.log + FinishCalls(o, io)
  {
    assert Busy(o);
    hide Consistent, Open, Flashed, Announced, Crc32.Update;
    var log, h := o.dev.log, o.s.wr.handle;
    assert log + [Call.End(h, true)] + [SetBoot(io.bootOk)] == log + [Call.End(h, true), SetBoot(io.bootOk)];
  }

  lemma FinishKeepsBytes(o: Ota, io: FinishIo)
    ensures Flashed(o.dev.log + FinishCalls(o, io)) == Flashed(o.dev.log)
  {
    hide Open, Flashed, Announced, Switches, HandlesSeen, Disciplined, Sound;
    var log, h := o.dev.log, o.s.wr.handle;
    Appended(log, Call.Abort(h));
    Appended(log, Call.End(h, false));
    Appended(log, Call.End(h, true));
    Appended(log + [Call.End(h, true)], SetBoot(io.bootOk));
    assert log + [Call.End(h, true)] + [SetBoot(io.bootOk)] == log + [Call.End(h, true), SetBoot(io.bootOk)];
  }

  lemma DroppedInv(o: Ota)
    requires Consistent(o) && o.s.active
    ensures Consistent(Dropped(o)) && Open(Dropped(o).dev.log) == {}
    ensures Switches(Dropped(o).dev.log) == Switches(o.dev.log)
  {
    Appended(o.dev.log, Call.Abort(o.s.wr.handle));
  }

  lemma FinishedInv(o: Ota, io: FinishIo)
    requires Consistent(o)
    ensures Consistent(Finished(o, io).0) && !Finished(o, io).0.s.active
  {
    hide Open, Flashed, Announced, Switches, HandlesSeen, Disciplined, Crc32.Update;
    if o.s.active {
      DroppedInv(o);
      var h := o.s.wr.handle;
      Appended(o.dev.log, Call.End(h, false));
      Appended(o.dev.log, Call.End(h, true));
      Appended(o.dev.log + [Call.End(h, true)], SetBoot(io.bootOk));
    }
  }

  lemma AbortedEffect(o: Ota)
    requires Consistent(o)
    ensures Consistent(Aborted(o)) && !Aborted(o).s.active
    ensures Flashed(Aborted(o).dev.log) == Flashed(o.dev.log)
    ensures Switches(Aborted(o).dev.log) == Switches(o.dev.log)
  {
    if o.s.active {
      DroppedInv(o);
      Appended(o.dev.log, Call.Abort(o.s.wr.handle));
    }
  }

  lemma AbortedInv(o: Ota)
    requires Consistent(o)
    ensures Consistent(Aborted(o)) && !Aborted(o).s.active
  {
    if o.s.active {
      DroppedInv(o);
    }
  }

  // ---- which error means what ----

  /** What the writer alone refuses, before any call to the device. */
  lemma WriterRefuses(d: Dev, w: Writer, data: seq<byte>, ok: bool, io: FinishIo)
    ensures var (d', e) := WriterWrite(d, w, data, ok);
            && (e == InvalidArg <==> w.handle == 0 || data == []) && (e == Ok <==> e != InvalidArg && ok)
            && (e == InvalidArg ==> d' == d)
    ensures var (d', e) := WriterEnd(d, w, io);
            && (e == InvalidState <==> w.handle == 0 || !w.dst)
            && (e == Ok <==> e != InvalidState && io.endOk && io.bootOk)
            && (e == InvalidState ==> d' == d)
  {
  }

  lemma BeginAnswers(o: Ota, total: word, crc: bv32, io: BeginIo)
    ensures var (o', e) := Begun(o, total, crc, io);
            && (e == InvalidArg <==> total == 0)
            && (e == InvalidState <==> total != 0 && o.s.active)
            && (e == NotFound <==> total != 0 && !o.s.active && io.slot == NoSlot)
            && (e == InvalidSize <==> total != 0 && !o.s.active && io.slot.SlotOf? && total > io.slot.size)
            && (e == Fail <==> total != 0 && !o.s.active && io.slot.SlotOf? && total <= io.slot.size && !io.beginOk)
            && (e in {Ok, InvalidArg, InvalidState, NotFound, InvalidSize, Fail})
            && (e == Ok <==> o'.dev.log == o.dev.log + [Call.Begin(o.dev.handles + 1, total)])
            && (e != Ok ==> o'.dev == o.dev && o'.s.active == o.s.active)
  {
    if Begun(o, total, crc, io).1 != Ok {
      assert |o.dev.log + [Call.Begin(o.dev.handles + 1, total)]| != |o.dev.log|;
    }
  }

  lemma FinishAnswers(o: Ota, io: FinishIo)
    requires Consistent(o)
    ensures var e := Finished(o, io).1; var image := Flashed(o.dev.log);
            && (e == InvalidState <==> !o.s.active)
            && (e == InvalidSize <==> o.s.active && |image| != o.s.expected)
            && (e == InvalidCrc <==> o.s.active && |image| == o.s.expected && !Crc32.ChecksumFits(o.s.crcExpect, image))
            && (e == Fail <==> o.s.active && Sound(o) && !(io.endOk && io.bootOk))
            && e in {Ok, InvalidState, InvalidSize, InvalidCrc, Fail}
  {
    hide Open, Flashed, Announced, HandlesSeen, Disciplined, Crc32.Update;
  }

  lemma WriteAnswers(o: Ota, data: Buffer, ok: bool)
    requires Consistent(o)
    ensures var (o', e) := Written(o, data, ok);
            && (e == InvalidArg <==> !o.s.active || data == [])
            && (e == InvalidSize <==> o.s.active && data != [] && o.s.written + |data| > o.s.expected)
            && (e == Fail <==> o.s.active && data != [] && o.s.written + |data| <= o.s.expected && !ok)
            && e in {Ok, InvalidArg, InvalidSize, Fail}
            && (e == InvalidArg || e == InvalidSize ==> o' == o)
  {
    hide Open, Flashed, Announced, HandlesSeen, Disciplined, Crc32.Update;
  }

  // ---- whole runs ----

  datatype Op =
    | DoBegin(total: word, crc: bv32, begin: BeginIo)
    | DoExpect(crc: bv32)                 // the TCP path sets the expected CRC late
    | DoWrite(data: Buffer, ok: bool)
    | DoFinish(finish: FinishIo)
    | DoAbort

  function Step(o: Ota, op: Op): Ota {
    match op
    case DoBegin(total, crc, io) => Begun(o, total, crc, io).0
    case DoExpect(crc) => o.(s := o.s.(crcExpect := crc))
    case DoWrite(data, ok) => Written(o, data, ok).0
    case DoFinish(io) => Finished(o, io).0
    case DoAbort => Aborted(o)
  }

  function Run(o: Ota, ops: seq<Op>): Ota
    decreases |ops|
  {
    if ops == [] then o else Run(Step(o, ops[0]), ops[1..])
  }

  lemma StepInv(o: Ota, op: Op)
    requires Consistent(o)
    ensures Consistent(Step(o, op))
  {
    match op
    case DoBegin(total, crc, io) => BegunInv(o, total, crc, io);
    case DoExpect(crc) =>
    case DoWrite(data, ok) => WrittenInv(o, data, ok);
    case DoFinish(io) => FinishedInv(o, io);
    case DoAbort => AbortedInv(o);
  }

  lemma {:induction false} RunInv(o: Ota, ops: seq<Op>)
    requires Consistent(o)
    ensures Consistent(Run(o, ops))
    decreases |ops|
  {
    if ops != [] {
      StepInv(o, ops[0]);
      RunInv(Step(o, ops[0]), ops[1..]);
    }
  }

  /**
   * Handle discipline: over every sequence of calls each handle is opened once,
   * used only while open, closed at most once, and none is open when idle.
   */
  lemma HandlesDisciplined(ops: seq<Op>)
    ensures var o := Run(FRESH, ops);
            Disciplined(o.dev.log) && (!o.s.active ==> Open(o.dev.log) == {})
  {
    FreshInv();
    RunInv(FRESH, ops);
  }

  /** The finish that may switch: complete, matching, and closed by the device. */
  predicate Deserves(o: Ota, op: Op) {
    && op.DoFinish? && o.s.active && op.finish.endOk
    && |Flashed(o.dev.log)| == Announced(o.dev.log)
    && Crc32.ChecksumFits(o.s.crcExpect, Flashed(o.dev.log))
  }

  /**
   * Boot-switch safety: after any history, a call touches the boot partition
   * exactly when it finishes a session whose accepted writes are, in order, all
   * the announced bytes and whose CRC is the expected one (or none is expected);
   * the handle is closed just before.
   */
  lemma BootSwitchedExactlyWhenDeserved(ops: seq<Op>, op: Op)
    ensures var o, o' := Run(FRESH, ops), Step(Run(FRESH, ops), op);
            && (Switches(o'.dev.log) != Switches(o.dev.log) <==> Deserves(o, op))
            && (Deserves(o, op) ==>
                  o'.dev.log == o.dev.log + [Call.End(o.s.wr.handle, true), SetBoot(op.finish.bootOk)])
  {
    FreshInv();
    RunInv(FRESH, ops);
    SwitchedExactlyWhenDeserved(Run(FRESH, ops), op);
  }

  lemma SwitchedExactlyWhenDeserved(o: Ota, op: Op)
    requires Consistent(o)
    ensures Switches(Step(o, op).dev.log) != Switches(o.dev.log) <==> Deserves(o, op)
    ensures Deserves(o, op) ==>
              Step(o, op).dev.log == o.dev.log + [Call.End(o.s.wr.handle, true), SetBoot(op.finish.bootOk)]
  {
    hide Open, Flashed, Announced, Switches, HandlesSeen, Disciplined, Crc32.Update;
    var log, h := o.dev.log, o.s.wr.handle;
    if o.s.active {
      DroppedInv(o);
    }
    match op
    case DoBegin(total, crc, io) => Appended(log, Call.Begin(o.dev.handles + 1, total));
    case DoExpect(crc) =>
    case DoWrite(data, ok) =>
      Appended(log, Call.Write(h, data));
      Appended(log, WriteRefused(h));
    case DoFinish(io) =>
      Appended(log, Call.End(h, false));
      Appended(log, Call.End(h, true));
      Appended(log + [Call.End(h, true)], SetBoot(io.bootOk));
      assert log + [Call.End(h, true)] + [SetBoot(io.bootOk)] == log + [Call.End(h, true), SetBoot(io.bootOk)];
    case DoAbort =>
  }

  /**
   * An image announced with its own register value and damaged anywhere within
   * four consecutive bytes is refused, its handle given back, the boot untouched.
   */
  lemma DamagedImageRefused(o: Ota, good: seq<byte>, at: nat, k: nat, io: FinishIo)
    requires Consistent(o) && o.s.active
    requires var got := Flashed(o.dev.log);
             && |got| == |good| == o.s.expected && k <= 4 && at + k <= |good|
             && got[..at] == good[..at] && got[at + k..] == good[at + k..] && got != good
    requires o.s.crcExpect == Crc32.Update(0, good) && o.s.crcExpect != 0
    ensures var (o', e) := Finished(o, io);
            e == InvalidCrc && !o'.s.active && o'.dev.log == o.dev.log + [Call.Abort(o.s.wr.handle)]
  {
    Crc32.BurstDetected(0, Flashed(o.dev.log), good, at, k);
  }

  lemma StepYields(o: Ota, op: Op)
    requires o.s.sinceYield < 0x1_0000
    ensures Step(o, op).s.sinceYield < 0x1_0000
  {
    hide Crc32.Update;
  }

  /** Over every run fewer than 64 KiB have been written since the writing task last yielded. */
  lemma {:induction false} YieldsEvery64K(o: Ota, ops: seq<Op>)
    requires o.s.sinceYield < 0x1_0000
    ensures Run(o, ops).s.sinceYield < 0x1_0000
    decreases |ops|
  {
    hide Step;
    if ops != [] {
      StepYields(o, ops[0]);
      YieldsEvery64K(Step(o, ops[0]), ops[1..]);
    }
  }

  /** Each accepted block counts towards the next yield, and reaching 64 KiB yields. */
  lemma YieldCounts(o: Ota, data: Buffer)
    requires Consistent(o) && o.s.active && data != [] && o.s.written + |data| <= o.s.expected
    requires o.s.sinceYield < 0x1_0000
    ensures var n := o.s.sinceYield + |data|; Written(o, data, true).0.s.sinceYield == if n >= 0x1_0000 then 0 else n
  {
    hide Open, Flashed, Announced, HandlesSeen, Disciplined, Crc32.Update;
  }
}
