/**
 * The flash device as the OTA code sees it. Every esp_ota_* call the code makes
 * is recorded, so what reached the flash, which handles are open and when the
 * boot partition was switched are read off the record and not off the code's
 * own counters. Whether a call succeeds is the environment's choice.
 */
module OtaFlash {
  import opened Bytes

  datatype Esp = Ok | InvalidArg | InvalidState | InvalidSize | InvalidCrc | NotFound | NoMem | Fail

  datatype Call =
    | Begin(handle: nat, size: word)
    | Write(handle: nat, data: seq<byte>)   // esp_ota_write accepted the data
    | WriteRefused(handle: nat)
    | End(handle: nat, ok: bool)            // consumes the handle either way
    | Abort(handle: nat)
    | SetBoot(ok: bool)

  /** handles counts the handles given out; the next one is handles + 1, so none is zero. */
  datatype Dev = Dev(log: seq<Call>, handles: nat)

  function Record(d: Dev, c: Call): Dev {
    d.(log := d.log + [c])
  }

  // ---- reading the record ----

  function OpenAfter(before: set<nat>, c: Call): set<nat> {
    match c
    case Begin(h, _) => before + {h}
    case End(h, _) => before - {h}
    case Abort(h) => before - {h}
    case _ => before
  }

  function FlashedAfter(before: seq<byte>, c: Call): seq<byte> {
    match c
    case Begin(_, _) => []
    case Write(_, data) => before + data
    case _ => before
  }

  function Open(log: seq<Call>): set<nat> {
    if log == [] then {} else OpenAfter(Open(log[..|log| - 1]), log[|log| - 1])
  }

  /** The bytes the flash accepted since the last esp_ota_begin, in order. */
  function Flashed(log: seq<Call>): seq<byte> {
    if log == [] then [] else FlashedAfter(Flashed(log[..|log| - 1]), log[|log| - 1])
  }

  /** The size the last esp_ota_begin was given. */
  function Announced(log: seq<Call>): word {
    if log == [] then 0
    else if log[|log| - 1].Begin? then log[|log| - 1].size
    else Announced(log[..|log| - 1])
  }

  /** How often the boot partition was set. */
  function Switches(log: seq<Call>): nat {
    if log == [] then 0
    else Switches(log[..|log| - 1]) + if log[|log| - 1].SetBoot? then 1 else 0
  }

  function HandlesSeen(log: seq<Call>): set<nat> {
    if log == [] then {}
    else HandlesSeen(log[..|log| - 1]) + if log[|log| - 1].Begin? then {log[|log| - 1].handle} else {}
  }

  /** A call respects the handles: begin gives a new non-zero one, all others use an open one. */
  predicate Allowed(before: seq<Call>, c: Call) {
    match c
    case Begin(h, _) => h != 0 && h !in HandlesSeen(before)
    case Write(h, _) => h in Open(before)
    case WriteRefused(h) => h in Open(before)
    case End(h, _) => h in Open(before)
    case Abort(h) => h in Open(before)
    case SetBoot(_) => Open(before) == {}
  }

  predicate Disciplined(log: seq<Call>) {
    forall i :: 0 <= i < |log| ==> Allowed(log[..i], log[i])
  }

  lemma Appended(log: seq<Call>, c: Call)
    ensures Open(log + [c]) == OpenAfter(Open(log), c)
    ensures Flashed(log + [c]) == FlashedAfter(Flashed(log), c)
    ensures Announced(log + [c]) == if c.Begin? then c.size else Announced(log)
    ensures Switches(log + [c]) == Switches(log) + if c.SetBoot? then 1 else 0
    ensures HandlesSeen(log + [c]) == HandlesSeen(log) + if c.Begin? then {c.handle} else {}
    ensures Disciplined(log + [c]) <==> Disciplined(log) && Allowed(log, c)
  {
    var all := log + [c];
    assert all[..|all| - 1] == log;
    forall i | 0 <= i < |log| ensures all[..i] == log[..i] && all[i] == log[i] {
    }
    if Disciplined(all) {
      forall i | 0 <= i < |log| ensures Allowed(log[..i], log[i]) {
        assert Allowed(all[..i], all[i]);
      }
      assert Allowed(all[..|log|], all[|log|]);
    }
  }

  // ---- the calls ----

  class Flash {
    var log: seq<Call>
    var handles: nat

    constructor ()
      ensures State() == Dev([], 0)
    {
      log, handles := [], 0;
    }

    function State(): Dev
      reads this
    {
      Dev(log, handles)
    }

    method OtaBegin(size: word, ok: bool) returns (e: Esp, handle: nat)
      modifies this
      ensures ok ==> e == Ok && handle == old(handles) + 1 && handles == handle
      ensures ok ==> log == old(log) + [Begin(handle, size)]
      ensures !ok ==> e == Fail && handle == 0 && State() == old(State())
    {
      if ok {
        handles := handles + 1;
        log := log + [Begin(handles, size)];
        e, handle := Ok, handles;
      } else {
        e, handle := Fail, 0;
      }
    }

    method OtaWrite(handle: nat, data: seq<byte>, ok: bool) returns (e: Esp)
      modifies this
      ensures e == (if ok then Ok else Fail)
      ensures State() == Record(old(State()), if ok then Write(handle, data) else WriteRefused(handle))
    {
      log := log + [if ok then Write(handle, data) else WriteRefused(handle)];
      e := if ok then Ok else Fail;
    }

    method OtaEnd(handle: nat, ok: bool) returns (e: Esp)
      modifies this
      ensures e == (if ok then Ok else Fail)
      ensures State() == Record(old(State()), End(handle, ok))
    {
      log := log + [End(handle, ok)];
      e := if ok then Ok else Fail;
    }

    method OtaAbort(handle: nat)
      modifies this
      ensures State() == Record(old(State()), Abort(handle))
    {
      log := log + [Abort(handle)];
    }

    method SetBootPartition(ok: bool) returns (e: Esp)
      modifies this
      ensures e == (if ok then Ok else Fail)
      ensures State() == Record(old(State()), SetBoot(ok))
    {
      log := log + [SetBoot(ok)];
      e := if ok then Ok else Fail;
    }
  }
}
