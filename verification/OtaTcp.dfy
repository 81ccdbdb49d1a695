/** The TCP transfer: an image and a trailing CRC read off a byte stream in unpredictable pieces. */
module OtaTcp {
  import opened Bytes
  import opened OtaFlash
  import opened OtaSession
  import Crc32

  // ---- the socket ----

  /** What one recv does: hand over at most n bytes, be interrupted, fail, or find the peer gone. */
  datatype RecvStep = Take(n: nat) | Interrupted | Failed | Closed

  /** The bytes still to come, and how the network will deliver them. */
  datatype Net = Net(stream: seq<byte>, plan: seq<RecvStep>)

  class Socket {
    var stream: seq<byte>
    var plan: seq<RecvStep>

    constructor (stream: seq<byte>, plan: seq<RecvStep>)
      ensures State() == Net(stream, plan)
    {
      this.stream, this.plan := stream, plan;
    }

    function State(): Net
      reads this
    {
      Net(stream, plan)
    }

    /** recv: r > 0 bytes stored at buf[at..], 0 at the end of the stream, -1 on error. */
    method Recv(buf: array<byte>, at: nat, len: nat) returns (r: int, interrupted: bool)
      requires at + len <= buf.Length && len > 0
      modifies this, buf
      ensures (r, interrupted) == RecvResult(old(State()), len)
      ensures State() == AfterRecv(old(State()), len)
      ensures r <= len && r <= |old(stream)|
      ensures buf[..at] == old(buf[..at])
      ensures r > 0 ==> buf[..at + r] == old(buf[..at]) + old(stream)[..r] && stream == old(stream)[r..]
      ensures r <= 0 ==> stream == old(stream)
    {
      if plan == [] {
        return 0, false;
      }
      var step := plan[0];
      plan := plan[1..];
      match step {
        case Interrupted => r, interrupted := -1, true;
        case Failed => r, interrupted := -1, false;
        case Closed => r, interrupted := 0, false;
        case Take(n) =>
          r := Min(n, Min(len, |stream|));
          interrupted := false;
          for i := 0 to r
            modifies buf
            invariant buf[..at + i] == old(buf[..at]) + stream[..i]
          {
            buf[at + i] := stream[i];
            assert buf[..at + i + 1] == buf[..at + i] + [stream[i]];
          }
          assert r == 0 ==> stream[r..] == stream;
          stream := stream[r..];
      }
    }
  }

  function RecvResult(s: Net, len: nat): (int, bool) {
    if s.plan == [] then (0, false)
    else
      match s.plan[0]
      case Interrupted => (-1, true)
      case Failed => (-1, false)
      case Closed => (0, false)
      case Take(n) => (Min(n, Min(len, |s.stream|)), false)
  }

  function AfterRecv(s: Net, len: nat): Net {
    if s.plan == [] then s
    else Net(if s.plan[0].Take? then s.stream[Min(s.plan[0].n, Min(len, |s.stream|))..] else s.stream, s.plan[1..])
  }

  // ---- recv_fully ----

  datatype Fill = Full(rest: Net) | Stopped(r: int, rest: Net)

  /** recv_fully with len bytes still missing. */
  function Filled(s: Net, len: nat): Fill
    decreases |s.plan|
  {
    if len == 0 then Full(s)
    else if s.plan == [] then Stopped(0, s)
    else
      var (r, interrupted) := RecvResult(s, len);
      var t := AfterRecv(s, len);
      if r > 0 then Filled(t, len - r)
      else if interrupted then Filled(t, len)
      else Stopped(r, t)
  }

  lemma {:induction false} FullTakesFromTheFront(s: Net, len: nat)
    ensures Filled(s, len).Full? ==> len <= |s.stream| && Filled(s, len).rest.stream == s.stream[len..]
    ensures Filled(s, len).Stopped? ==> Filled(s, len).r <= 0
    decreases |s.plan|
  {
    if len > 0 && s.plan != [] {
      var r := RecvResult(s, len).0;
      FullTakesFromTheFront(AfterRecv(s, len), if r > 0 then len - r else len);
    }
  }

  lemma OneRecv(s: Net, len: nat)
    requires len > 0 && s.plan != []
    ensures var (r, interrupted) := RecvResult(s, len); var t := AfterRecv(s, len);
            && |t.plan| < |s.plan|
            && (r > 0 ==> r <= len && Filled(s, len) == Filled(t, len - r))
            && (r <= 0 && interrupted ==> r < 0 && Filled(s, len) == Filled(t, len))
            && (r <= 0 && !interrupted ==> Filled(s, len) == Stopped(if r == 0 then 0 else -1, t))
  {
  }

  lemma NothingPlanned(s: Net, len: nat)
    requires len > 0 && s.plan == []
    ensures Filled(s, len) == Stopped(0, s)
  {
  }

  lemma NothingMissing(s: Net)
    ensures Filled(s, 0) == Full(s)
  {
  }

  method RecvFully(sock: Socket, buf: array<byte>, len: nat) returns (r: int)
    requires 0 < len <= buf.Length
    modifies sock, buf
    ensures match Filled(old(sock.State()), len)
            case Full(rest) => r == len && sock.State() == rest && len <= |old(sock.stream)|
                               && buf[..len] == old(sock.stream)[..len]
            case Stopped(result, rest) => r == result <= 0 && sock.State() == rest
  {
    hide Filled, RecvResult, AfterRecv;
    ghost var s0 := sock.State();
    var got := 0;
    FullTakesFromTheFront(s0, len);
    assert s0.stream[0..] == s0.stream;
    while got < len
      invariant 0 <= got <= len && got <= |s0.stream|
      invariant sock.stream == s0.stream[got..] && buf[..got] == s0.stream[..got]
      invariant Filled(sock.State(), len - got) == Filled(s0, len)
      decreases |sock.plan|, len - got
    {
      ghost var before := sock.State();
      if sock.plan == [] {
        NothingPlanned(before, len - got);
        return 0;
      }
      OneRecv(before, len - got);
      var n, interrupted := sock.Recv(buf, got, len - got);
      if n == 0 {
        return 0;
      }
      if n < 0 {
        if interrupted {
          continue;
        }
        return -1;
      }
      assert s0.stream[..got + n] == s0.stream[..got] + s0.stream[got..][..n];
      assert s0.stream[got..][n..] == s0.stream[got + n..];
      got := got + n;
    }
    NothingMissing(sock.State());
    r := got;
  }

  // ---- ota_perform ----

  const WRITE_BUF := 4096

  /** writes answers the flash writes one by one; beyond its end they succeed. */
  datatype TcpIo = TcpIo(begin: BeginIo, mallocOk: bool, writes: seq<bool>, finish: FinishIo)

  predicate WriteOk(writes: seq<bool>, i: nat) {
    i < |writes| ==> writes[i]
  }

  datatype Line = Ack | BadSize | ErrBegin | ErrNoMem | ErrPayload | ErrWrite | ErrCrc | CrcFail | ErrEnd | Okay

  datatype Phase = Payload(ota: Ota, net: Net) | Broken(ota: Ota, net: Net, line: Line, err: Esp)

  /** The receive loop with left bytes to go and i blocks written. */
  function Streamed(o: Ota, net: Net, left: nat, i: nat, writes: seq<bool>): Phase
    decreases left
  {
    if left == 0 then Payload(o, net)
    else
      var want := Min(left, WRITE_BUF);
      match Filled(net, want)
      case Stopped(_, rest) => Broken(o, rest, ErrPayload, Fail)
      case Full(rest) =>
        FullTakesFromTheFront(net, want);
        var (o1, e) := Written(o, net.stream[..want], WriteOk(writes, i));
        if e != Ok then Broken(o1, rest, ErrWrite, e)
        else Streamed(o1, rest, left - want, i + 1, writes)
  }

  datatype Outcome = Outcome(ota: Ota, net: Net, lines: seq<Line>, err: Esp, restarted: bool)

  function Trailed(o: Ota, net: Net, finish: FinishIo): Outcome {
    match Filled(net, 4)
    case Stopped(_, rest) => Outcome(Aborted(o), rest, [Ack, ErrCrc], Fail, false)
    case Full(rest) =>
      FullTakesFromTheFront(net, 4);
      var (o1, e) := Finished(o.(s := o.s.(crcExpect := Crc32.RdCrc(net.stream[..4]))), finish);
      if e != Ok then Outcome(o1, rest, [Ack, if e == InvalidCrc then CrcFail else ErrEnd], e, false)
      else Outcome(o1, rest, [Ack, Okay], Ok, true)
  }

  function Performed(o: Ota, net: Net, size: word, io: TcpIo): Outcome {
    if size == 0 then Outcome(o, net, [BadSize], InvalidSize, false)
    else
      var (o1, e) := Begun(o, size, 0, io.begin);
      if e != Ok then Outcome(o1, net, [Ack, ErrBegin], e, false)
      else if !io.mallocOk then Outcome(Aborted(o1), net, [Ack, ErrNoMem], NoMem, false)
      else
        match Streamed(o1, net, size, 0, io.writes)
        case Broken(o2, rest, line, err) => Outcome(Aborted(o2), rest, [Ack, line], err, false)
        case Payload(o2, rest) => Trailed(o2, rest, io.finish)
  }

  /** The receive loop of ota_perform. */
  method ReceivePayload(sock: Socket, s: OtaSession, size: word, writes: seq<bool>)
      returns (complete: bool, line: Line, err: Esp)
    modifies sock, s, s.wr, s.flash
    ensures match Streamed(old(s.State()), old(sock.State()), size, 0, writes)
            case Payload(o, rest) => complete && s.State() == o && sock.State() == rest
            case Broken(o, rest, why, e) =>
              !complete && s.State() == o && sock.State() == rest && line == why && err == e
  {
    hide Filled, Written;
    complete, line, err := false, ErrPayload, Fail;
    var buf := new byte[WRITE_BUF](_ => 0);
    var received, blocks := 0, 0;
    while received < size
      invariant 0 <= received <= size
      invariant fresh(buf) && buf.Length == WRITE_BUF
      invariant Streamed(s.State(), sock.State(), size - received, blocks, writes) ==
                old(Streamed(s.State(), sock.State(), size, 0, writes))
      invariant !complete && line == ErrPayload
    {
      var want := Min(size - received, WRITE_BUF);
      FullTakesFromTheFront(sock.State(), want);
      var r := RecvFully(sock, buf, want);
      if r <= 0 {
        err := Fail;
        return;
      }
      err := s.Write(buf[..r], WriteOk(writes, blocks));
      if err != Ok {
        line := ErrWrite;
        return;
      }
      received := received + r;
      blocks := blocks + 1;
    }
    complete := true;
  }

  /** The trailing CRC and the end of ota_perform. */
  method ReceiveTrailer(sock: Socket, s: OtaSession, finish: FinishIo)
      returns (err: Esp, lines: seq<Line>, restarted: bool)
    modifies sock, s, s.wr, s.flash
    ensures var o := Trailed(old(s.State()), old(sock.State()), finish);
            && s.State() == o.ota && sock.State() == o.net
            && err == o.err && lines == o.lines && restarted == o.restarted
  {
    hide Filled, Finished, Aborted, Crc32.RdCrc;
    var tail := new byte[4](_ => 0);
    FullTakesFromTheFront(sock.State(), 4);
    var got := RecvFully(sock, tail, 4);
    if got != 4 {
      s.Abort();
      return Fail, [Ack, ErrCrc], false;
    }
    s.crcExpect := Crc32.RdCrc(tail[..4]);
    err := s.Finish(finish);
    if err != Ok {
      return err, [Ack, if err == InvalidCrc then CrcFail else ErrEnd], false;
    }
    lines := [Ack, Okay];
    restarted := true;
  }

  /** stale: what the uninitialised session on the stack happens to hold in its active flag. */
  method Perform(sock: Socket, flash: Flash, stale: bool, size: word, io: TcpIo)
      returns (err: Esp, lines: seq<Line>, restarted: bool)
    modifies sock, flash
    ensures var o := Performed(Ota(ZEROED.(active := stale), old(flash.State())), old(sock.State()), size, io);
            && flash.State() == o.ota.dev && sock.State() == o.net
            && err == o.err && lines == o.lines && restarted == o.restarted
  {
    hide Streamed, Trailed, Begun, Aborted;
    restarted := false;
    if size == 0 {
      return InvalidSize, [BadSize], false;
    }
    lines := [Ack];
    var s := new OtaSession(flash, stale);
    err := s.Begin(size, 0, io.begin);
    if err != Ok {
      lines := lines + [ErrBegin];
      return;
    }
    if !io.mallocOk {
      s.Abort();
      return NoMem, [Ack, ErrNoMem], false;
    }
    var complete, line;
    complete, line, err := ReceivePayload(sock, s, size, io.writes);
    if !complete {
      s.Abort();
      lines := lines + [line];
      return;
    }
    err, lines, restarted := ReceiveTrailer(sock, s, io.finish);
  }

  // ---- what a transfer does, told from the stream ----

  /** The image cut into 4096-byte blocks and written in order. */
  function BlockWrites(h: nat, image: seq<byte>): seq<Call> {
    if image == [] then []
    else
      var k := Min(|image|, WRITE_BUF);
      [Call.Write(h, image[..k])] + BlockWrites(h, image[k..])
  }

  /** The payload phase ended with the whole image on the flash, block by block. */
  ghost predicate ImageWritten(o: Ota, stream: seq<byte>, left: nat, o1: Ota, rest: seq<byte>)
    requires left <= |stream|
  {
    && Consistent(o1) && o1.s.active && o1.s.wr == o.s.wr && o1.s.written == o1.s.expected == o.s.expected
    && rest == stream[left..]
    && Flashed(o1.dev.log) == Flashed(o.dev.log) + stream[..left]
    && o1.dev.log == o.dev.log + BlockWrites(o.s.wr.handle, stream[..left])
  }

  lemma NothingLeft(o: Ota, stream: seq<byte>)
    requires Consistent(o) && o.s.active && o.s.written == o.s.expected
    ensures ImageWritten(o, stream, 0, o, stream)
  {
    hide Flashed, Consistent;
  }

  /** One block, then the rest of the image. */
  lemma BlockThenRest(o: Ota, stream: seq<byte>, want: nat, left: nat, o1: Ota, o2: Ota, rest: seq<byte>)
    requires 0 < left <= |stream| && want == Min(left, WRITE_BUF)
    requires o1.s.wr == o.s.wr && o1.s.expected == o.s.expected
    requires Flashed(o1.dev.log) == Flashed(o.dev.log) + stream[..want]
    requires o1.dev.log == o.dev.log + [Call.Write(o.s.wr.handle, stream[..want])]
    requires ImageWritten(o1, stream[want..], left - want, o2, rest)
    ensures ImageWritten(o, stream, left, o2, rest)
  {
    hide Flashed, Consistent, BlockWrites;
    Regroup(stream, want, left);
    BlockStep(o.s.wr.handle, stream, want, left);
    Associates(Flashed(o.dev.log), stream[..want], stream[want..][..left - want]);
    Associates(o.dev.log, [Call.Write(o.s.wr.handle, stream[..want])],
               BlockWrites(o.s.wr.handle, stream[want..][..left - want]));
  }

  lemma {:induction false} StreamedEffect(o: Ota, net: Net, left: nat, i: nat, writes: seq<bool>)
    requires Consistent(o) && o.s.active && o.s.written + left == o.s.expected
    ensures match Streamed(o, net, left, i, writes)
            case Broken(o1, _, line, _) => Consistent(o1) && line in {ErrPayload, ErrWrite}
            case Payload(o1, rest) => left <= |net.stream| && ImageWritten(o, net.stream, left, o1, rest.stream)
    decreases left
  {
    hide Filled, Written, Consistent, Flashed, ImageWritten;
    if left > 0 {
      var want := Min(left, WRITE_BUF);
      FullTakesFromTheFront(net, want);
      if Filled(net, want).Full? {
        var data := net.stream[..want];
        WrittenEffect(o, data, WriteOk(writes, i));
        if WriteOk(writes, i) {
          var o1, rest := Written(o, data, true).0, Filled(net, want).rest;
          StreamedEffect(o1, rest, left - want, i + 1, writes);
          var last := Streamed(o1, rest, left - want, i + 1, writes);
          if last.Payload? {
            BlockThenRest(o, net.stream, want, left, o1, last.ota, last.net.stream);
          }
        }
      }
    } else {
      NothingLeft(o, net.stream);
    }
  }

  lemma Regroup(stream: seq<byte>, want: nat, left: nat)
    requires want <= left && left <= |stream|
    ensures stream[..want] + stream[want..][..left - want] == stream[..left]
    ensures stream[want..][left - want..] == stream[left..]
  {
  }

  lemma BlockStep(h: nat, stream: seq<byte>, want: nat, left: nat)
    requires 0 < left <= |stream| && want == Min(left, WRITE_BUF)
    ensures BlockWrites(h, stream[..left]) ==
            [Call.Write(h, stream[..want])] + BlockWrites(h, stream[want..][..left - want])
  {
    assert stream[..left][..want] == stream[..want];
    assert stream[..left][want..] == stream[want..][..left - want];
  }

  /** The network hands over the payload and the trailer, however cut up. */
  predicate Delivered(net: Net, left: nat)
    decreases left
  {
    if left == 0 then Filled(net, 4).Full?
    else
      var want := Min(left, WRITE_BUF);
      Filled(net, want).Full? && Delivered(Filled(net, want).rest, left - want)
  }

  predicate BlocksOk(writes: seq<bool>, i: nat, left: nat)
    decreases left
  {
    left == 0 || (WriteOk(writes, i) && BlocksOk(writes, i + 1, left - Min(left, WRITE_BUF)))
  }

  lemma {:induction false} DeliveredPayload(o: Ota, net: Net, left: nat, i: nat, writes: seq<bool>)
    requires Consistent(o) && o.s.active && o.s.written + left == o.s.expected && Delivered(net, left)
    ensures BlocksOk(writes, i, left) <==> Streamed(o, net, left, i, writes).Payload?
    ensures match Streamed(o, net, left, i, writes)
            case Payload(_, rest) => Filled(rest, 4).Full?
            case Broken(_, _, line, _) => line == ErrWrite
    decreases left
  {
    hide Filled, Written, Consistent, Flashed;
    if left > 0 {
      var want := Min(left, WRITE_BUF);
      FullTakesFromTheFront(net, want);
      WrittenEffect(o, net.stream[..want], WriteOk(writes, i));
      if WriteOk(writes, i) {
        DeliveredPayload(Written(o, net.stream[..want], true).0, Filled(net, want).rest, left - want, i + 1, writes);
      }
    }
  }

  lemma {:induction false} PayloadNeedsDelivery(o: Ota, net: Net, left: nat, i: nat, writes: seq<bool>)
    requires Consistent(o) && o.s.active && o.s.written + left == o.s.expected
    requires Streamed(o, net, left, i, writes).Payload? && Filled(Streamed(o, net, left, i, writes).net, 4).Full?
    ensures Delivered(net, left)
    decreases left
  {
    hide Filled, Written, Consistent, Flashed;
    if left > 0 {
      var want := Min(left, WRITE_BUF);
      FullTakesFromTheFront(net, want);
      WrittenEffect(o, net.stream[..want], WriteOk(writes, i));
      PayloadNeedsDelivery(Written(o, net.stream[..want], true).0, Filled(net, want).rest, left - want, i + 1, writes);
    }
  }

  /** What the device and the stream must give for a transfer to succeed; no word about how the bytes arrive. */
  predicate Acceptable(o: Ota, stream: seq<byte>, size: word, io: TcpIo)
    requires size + 4 <= |stream|
  {
    var trailer := Crc32.RdCrc(stream[size..size + 4]);
    && size != 0 && !o.s.active
    && io.begin.slot.SlotOf? && size <= io.begin.slot.size && io.begin.beginOk
    && io.mallocOk && BlocksOk(io.writes, 0, size) && io.finish.endOk && io.finish.bootOk
    && Crc32.ChecksumFits(trailer, stream[..size])
  }

  lemma BegunSession(o: Ota, size: word, io: BeginIo)
    requires Consistent(o) && size != 0
    ensures var (o1, e) := Begun(o, size, 0, io);
            && Consistent(o1)
            && (e == Ok <==> !o.s.active && io.slot.SlotOf? && size <= io.slot.size && io.beginOk)
            && (e == Ok ==> o1.s.active && o1.s.written == 0 && o1.s.expected == size
                            && o1.s.wr.handle == o.dev.handles + 1 && Flashed(o1.dev.log) == []
                            && o1.dev.log == o.dev.log + [Call.Begin(o.dev.handles + 1, size)])
            && (e != Ok ==> o1.dev == o.dev)
  {
    BegunInv(o, size, 0, io);
    hide Flashed, Consistent;
    Appended(o.dev.log, Call.Begin(o.dev.handles + 1, size));
  }

  /** The end of a transfer whose payload is on the flash. */
  lemma TrailedEffect(o: Ota, net: Net, finish: FinishIo)
    requires Consistent(o) && o.s.active && o.s.written == o.s.expected
    ensures Consistent(Trailed(o, net, finish).ota) && !Trailed(o, net, finish).ota.s.active
    ensures Filled(net, 4).Full? ==> 4 <= |net.stream| && Trailed(o, net, finish).net.stream == net.stream[4..]
    ensures Filled(net, 4).Full? ==> Flashed(Trailed(o, net, finish).ota.dev.log) == Flashed(o.dev.log)
    ensures Trailed(o, net, finish).restarted ==
            (Filled(net, 4).Full? && 4 <= |net.stream| && finish.endOk && finish.bootOk
             && Crc32.ChecksumFits(Crc32.RdCrc(net.stream[..4]), Flashed(o.dev.log)))
    ensures Trailed(o, net, finish).restarted ==>
            Trailed(o, net, finish).ota.dev.log == o.dev.log + [Call.End(o.s.wr.handle, true), SetBoot(true)]
  {
    assert |Flashed(o.dev.log)| == o.s.expected;
    hide Filled, Finished, Consistent, Flashed, Crc32.RdCrc, Crc32.Update, Aborted;
    FullTakesFromTheFront(net, 4);
    AbortedEffect(o);
    if Filled(net, 4).Full? {
      var o1 := o.(s := o.s.(crcExpect := Crc32.RdCrc(net.stream[..4])));
      ExpectKeeps(o, Crc32.RdCrc(net.stream[..4]));
      FinishedEffect(o1, finish);
    }
  }

  lemma ExpectKeeps(o: Ota, crc: bv32)
    requires Consistent(o)
    ensures Consistent(o.(s := o.s.(crcExpect := crc)))
  {
    hide Disciplined, Open, Flashed, Crc32.Update;
  }

  // ---- the main results ----

  /** Uninitialised session memory that looks active stops the transfer before the device is touched. */
  lemma StaleMemoryOnlyRefuses(o: Ota, net: Net, size: word, io: TcpIo)
    requires o.s.active
    ensures var t := Performed(o, net, size, io);
            && t.ota == o && t.net == net && !t.restarted
            && t.err == (if size == 0 then InvalidSize else InvalidState)
  {
  }

  /** However the transfer ends, the handles were used in order and none is left open. */
  lemma EveryPathCleansUp(o: Ota, net: Net, size: word, io: TcpIo)
    requires Consistent(o) && !o.s.active
    ensures var t := Performed(o, net, size, io);
            && Disciplined(t.ota.dev.log) && Open(t.ota.dev.log) == {} && !t.ota.s.active && Consistent(t.ota)
  {
    hide Streamed, Trailed, Begun, Aborted, Open, Flashed, Disciplined;
    if size != 0 {
      BegunSession(o, size, io.begin);
      var o1 := Begun(o, size, 0, io.begin).0;
      if Begun(o, size, 0, io.begin).1 == Ok {
        AbortedEffect(o1);
        StreamedEffect(o1, net, size, 0, io.writes);
        match Streamed(o1, net, size, 0, io.writes)
        case Broken(o2, _, _, _) => AbortedEffect(o2);
        case Payload(o2, rest) =>
          TrailedEffect(o2, rest, io.finish);
      } else {
        FailedBeginIsIdle(o, size, io.begin);
      }
    }
  }

  lemma FailedBeginIsIdle(o: Ota, size: word, io: BeginIo)
    requires !o.s.active && Begun(o, size, 0, io).1 != Ok
    ensures !Begun(o, size, 0, io).0.s.active
  {
  }

  /** The calls a successful transfer makes, from begin to the boot switch. */
  function TransferLog(h: nat, image: seq<byte>, size: word): seq<Call> {
    [Call.Begin(h, size)] + BlockWrites(h, image) + [Call.End(h, true), SetBoot(true)]
  }

  /** What a restart means: size + 4 bytes read, the first size of them flashed in blocks, the rest a fit trailer. */
  ghost predicate Installed(o: Ota, stream: seq<byte>, size: word, t: Outcome) {
    && size + 4 <= |stream| && t.net.stream == stream[size + 4..]
    && Flashed(t.ota.dev.log) == stream[..size]
    && t.ota.dev.log == o.dev.log + TransferLog(o.dev.handles + 1, stream[..size], size)
    && Crc32.ChecksumFits(Crc32.RdCrc(stream[size..size + 4]), stream[..size])
  }

  /** The record a restart leaves behind. */
  lemma InstalledRecord(o: Ota, o1: Ota, o2: Ota, image: seq<byte>, size: word, rest: Net, finish: FinishIo)
    requires Consistent(o2) && o2.s.active && o2.s.written == o2.s.expected
    requires o1.s.wr.handle == o2.s.wr.handle == o.dev.handles + 1
    requires o1.dev.log == o.dev.log + [Call.Begin(o.dev.handles + 1, size)]
    requires o2.dev.log == o1.dev.log + BlockWrites(o1.s.wr.handle, image)
    ensures Trailed(o2, rest, finish).restarted ==>
            Trailed(o2, rest, finish).ota.dev.log == o.dev.log + TransferLog(o.dev.handles + 1, image, size)
  {
    hide Trailed, Filled, Flashed, Consistent, BlockWrites, Crc32.RdCrc, Crc32.Update;
    TrailedEffect(o2, rest, finish);
    var h := o.dev.handles + 1;
    LogJoins(o.dev.log, [Call.Begin(h, size)], BlockWrites(h, image), [Call.End(h, true), SetBoot(true)]);
  }

  /** The trailer phase of a transfer whose payload arrived. */
  lemma PayloadThenTrailer(o: Ota, o1: Ota, o2: Ota, stream: seq<byte>, size: word, rest: Net, finish: FinishIo)
    requires size <= |stream| && o1.s.active && o1.s.wr.handle == o.dev.handles + 1
    requires Flashed(o1.dev.log) == [] && o1.dev.log == o.dev.log + [Call.Begin(o.dev.handles + 1, size)]
    requires ImageWritten(o1, stream, size, o2, rest.stream)
    ensures Trailed(o2, rest, finish).restarted ==> Installed(o, stream, size, Trailed(o2, rest, finish))
    ensures Trailed(o2, rest, finish).restarted <==>
            (Filled(rest, 4).Full? && size + 4 <= |stream| && finish.endOk && finish.bootOk
             && Crc32.ChecksumFits(Crc32.RdCrc(stream[size..size + 4]), stream[..size]))
  {
    hide Trailed, Filled, Flashed, Consistent, BlockWrites, TransferLog, Crc32.RdCrc, Crc32.Update;
    TrailedEffect(o2, rest, finish);
    InstalledRecord(o, o1, o2, stream[..size], size, rest, finish);
    assert [] + stream[..size] == stream[..size];
    if Filled(rest, 4).Full? {
      assert stream[size..][..4] == stream[size..size + 4];
      assert stream[size..][4..] == stream[size + 4..];
    }
  }

  lemma LogJoins(log: seq<Call>, begin: seq<Call>, mid: seq<Call>, end: seq<Call>)
    ensures log + begin + mid + end == log + (begin + mid + end)
  {
  }

  /**
   * A transfer succeeds exactly when the network delivers image and trailer, in
   * whatever pieces, and the bytes and the device are acceptable; and then it
   * installed exactly those bytes.
   */
  lemma SucceedsExactly(o: Ota, net: Net, size: word, io: TcpIo)
    requires Consistent(o) && !o.s.active
    ensures Performed(o, net, size, io).restarted ==> Installed(o, net.stream, size, Performed(o, net, size, io))
    ensures Performed(o, net, size, io).restarted <==>
            (size + 4 <= |net.stream| && Delivered(net, size) && Acceptable(o, net.stream, size, io))
  {
    hide Streamed, Trailed, Begun, Aborted, Filled, Delivered, BlocksOk, Flashed, Consistent, Crc32.RdCrc,
         Crc32.ChecksumFits, Installed, ImageWritten;
    if size != 0 {
      BegunSession(o, size, io.begin);
      var o1 := Begun(o, size, 0, io.begin).0;
      if Begun(o, size, 0, io.begin).1 == Ok && io.mallocOk {
        StreamedEffect(o1, net, size, 0, io.writes);
        if Delivered(net, size) {
          DeliveredPayload(o1, net, size, 0, io.writes);
        }
        match Streamed(o1, net, size, 0, io.writes)
        case Broken(_, _, _, _) =>
        case Payload(o2, rest) =>
          PayloadThenTrailer(o, o1, o2, net.stream, size, rest, io.finish);
          if Filled(rest, 4).Full? {
            PayloadNeedsDelivery(o1, net, size, 0, io.writes);
            DeliveredPayload(o1, net, size, 0, io.writes);
          }
      }
    }
  }

  // ---- what the host is told ----

  lemma TrailerReplies(o: Ota, net: Net, finish: FinishIo)
    requires Consistent(o) && o.s.active && o.s.written == o.s.expected
    ensures var t := Trailed(o, net, finish);
            if Filled(net, 4).Stopped? then t.lines == [Ack, ErrCrc] && t.err == Fail
            else
              && 4 <= |net.stream|
              && var fits := Crc32.ChecksumFits(Crc32.RdCrc(net.stream[..4]), Flashed(o.dev.log));
                 if !fits then t.lines == [Ack, CrcFail] && t.err == InvalidCrc
                 else if !(finish.endOk && finish.bootOk) then t.lines == [Ack, ErrEnd] && t.err == Fail
                 else t.lines == [Ack, Okay] && t.err == Ok
  {
    assert |Flashed(o.dev.log)| == o.s.expected;
    hide Filled, Finished, Consistent, Flashed, Crc32.RdCrc, Crc32.ChecksumFits, Aborted;
    FullTakesFromTheFront(net, 4);
    if Filled(net, 4).Full? {
      var crc := Crc32.RdCrc(net.stream[..4]);
      ExpectKeeps(o, crc);
      FinishAnswers(o.(s := o.s.(crcExpect := crc)), finish);
    }
  }

  /** The session can be begun: image, slot and flash agree to it. */
  predicate Begins(size: word, io: BeginIo) {
    io.slot.SlotOf? && size <= io.slot.size && io.beginOk
  }

  /** The replies of a transfer that stops before a byte is received. */
  lemma RefusalReplies(o: Ota, net: Net, size: word, io: TcpIo)
    requires !o.s.active && (size == 0 || !Begins(size, io.begin) || !io.mallocOk)
    ensures var t := Performed(o, net, size, io);
            && t.net == net && !t.restarted
            && t.lines == (if size == 0 then [BadSize] else if !Begins(size, io.begin) then [Ack, ErrBegin]
                           else [Ack, ErrNoMem])
            && (size == 0 ==> t.err == InvalidSize)
            && (size != 0 && Begins(size, io.begin) ==> t.err == NoMem)
            && (size != 0 && !Begins(size, io.begin) ==>
                  t.err == if io.begin.slot == NoSlot then NotFound
                           else if size > io.begin.slot.size then InvalidSize
                           else Fail)
  {
    if size != 0 {
      BeginAnswers(o, size, 0, io.begin);
      hide Streamed, Trailed, Begun, Aborted;
    }
  }

  /**
   * With image and trailer delivered, the last reply names the first thing that
   * went wrong: a refused block, the checksum, the end of the image, or nothing.
   */
  lemma RepliesWhenDelivered(o: Ota, net: Net, size: word, io: TcpIo)
    requires Consistent(o) && !o.s.active && size != 0 && Begins(size, io.begin) && io.mallocOk
    requires size + 4 <= |net.stream| && Delivered(net, size)
    ensures var t := Performed(o, net, size, io);
            var fits := Crc32.ChecksumFits(Crc32.RdCrc(net.stream[size..size + 4]), net.stream[..size]);
            if !BlocksOk(io.writes, 0, size) then t.lines == [Ack, ErrWrite] && t.err == Fail
            else if !fits then t.lines == [Ack, CrcFail] && t.err == InvalidCrc
            else if !(io.finish.endOk && io.finish.bootOk) then t.lines == [Ack, ErrEnd] && t.err == Fail
            else t.lines == [Ack, Okay] && t.err == Ok && t.restarted
  {
    BegunSession(o, size, io.begin);
    var o1 := Begun(o, size, 0, io.begin).0;
    DeliveredPayload(o1, net, size, 0, io.writes);
    StreamedEffect(o1, net, size, 0, io.writes);
    WriteErrorIsFail(o1, net, size, 0, io.writes);
    hide Streamed, Trailed, Begun, Aborted, Filled, Delivered, BlocksOk, Flashed, Consistent, Crc32.RdCrc,
         Crc32.ChecksumFits, ImageWritten;
    match Streamed(o1, net, size, 0, io.writes)
    case Broken(_, _, _, _) =>
    case Payload(o2, rest) => TrailerRepliesForStream(o1, o2, net.stream, size, rest, io.finish);
  }

  lemma TrailerRepliesForStream(o1: Ota, o2: Ota, stream: seq<byte>, size: word, rest: Net, finish: FinishIo)
    requires size + 4 <= |stream| && ImageWritten(o1, stream, size, o2, rest.stream)
    requires Flashed(o1.dev.log) == [] && Filled(rest, 4).Full?
    ensures var t := Trailed(o2, rest, finish);
            var fits := Crc32.ChecksumFits(Crc32.RdCrc(stream[size..size + 4]), stream[..size]);
            && t.lines == [Ack, if !fits then CrcFail else if finish.endOk && finish.bootOk then Okay else ErrEnd]
            && t.err == (if !fits then InvalidCrc else if finish.endOk && finish.bootOk then Ok else Fail)
            && t.restarted == (t.err == Ok)
  {
    hide Trailed, Filled, Flashed, Consistent, Crc32.RdCrc, Crc32.ChecksumFits, BlockWrites;
    TrailerReplies(o2, rest, finish);
    TrailedEffect(o2, rest, finish);
    assert [] + stream[..size] == stream[..size];
    assert stream[size..][..4] == stream[size..size + 4];
  }

  lemma {:induction false} WriteErrorIsFail(o: Ota, net: Net, left: nat, i: nat, writes: seq<bool>)
    requires Consistent(o) && o.s.active && o.s.written + left == o.s.expected
    ensures var p := Streamed(o, net, left, i, writes); p.Broken? ==> p.err == Fail
    decreases left
  {
    hide Filled, Written, Consistent, Flashed;
    if left > 0 {
      var want := Min(left, WRITE_BUF);
      FullTakesFromTheFront(net, want);
      if Filled(net, want).Full? {
        WrittenEffect(o, net.stream[..want], WriteOk(writes, i));
        if WriteOk(writes, i) {
          WriteErrorIsFail(Written(o, net.stream[..want], true).0, Filled(net, want).rest, left - want, i + 1, writes);
        }
      }
    }
  }

  /** The payload comes in, block by block. */
  predicate Arrives(net: Net, left: nat)
    decreases left
  {
    left == 0 ||
    (var want := Min(left, WRITE_BUF);
     Filled(net, want).Full? && Arrives(Filled(net, want).rest, left - want))
  }

  lemma {:induction false} CutOffPayload(o: Ota, net: Net, left: nat, i: nat, writes: seq<bool>)
    requires Consistent(o) && o.s.active && o.s.written + left == o.s.expected && BlocksOk(writes, i, left)
    ensures var p := Streamed(o, net, left, i, writes);
            if Arrives(net, left) then p.Payload? && (Filled(p.net, 4).Full? <==> Delivered(net, left))
            else p.Broken? && p.line == ErrPayload
    decreases left
  {
    hide Filled, Written, Consistent, Flashed;
    if left > 0 {
      var want := Min(left, WRITE_BUF);
      FullTakesFromTheFront(net, want);
      if Filled(net, want).Full? {
        WrittenEffect(o, net.stream[..want], true);
        CutOffPayload(Written(o, net.stream[..want], true).0, Filled(net, want).rest, left - want, i + 1, writes);
      }
    }
  }

  /** With the flash working, a network that gives up is told where: in the payload or in the trailer. */
  lemma RepliesWhenCutOff(o: Ota, net: Net, size: word, io: TcpIo)
    requires Consistent(o) && !o.s.active && size != 0 && Begins(size, io.begin) && io.mallocOk
    requires BlocksOk(io.writes, 0, size) && !Delivered(net, size)
    ensures var t := Performed(o, net, size, io);
            t.lines == [Ack, if Arrives(net, size) then ErrCrc else ErrPayload] && t.err == Fail && !t.restarted
  {
    BegunSession(o, size, io.begin);
    var o1 := Begun(o, size, 0, io.begin).0;
    CutOffPayload(o1, net, size, 0, io.writes);
    StreamedEffect(o1, net, size, 0, io.writes);
    WriteErrorIsFail(o1, net, size, 0, io.writes);
    hide Streamed, Trailed, Begun, Aborted, Filled, Delivered, BlocksOk, Flashed, Consistent, Arrives, BlockWrites;
    match Streamed(o1, net, size, 0, io.writes)
    case Broken(_, _, _, _) =>
    case Payload(o2, rest) =>
      TrailerReplies(o2, rest, io.finish);
      TrailedEffect(o2, rest, io.finish);
  }

  predicate IsBlock(h: nat, c: Call) {
    c.Write? && c.handle == h && 0 < |c.data| <= 4096
  }

  /** Every block but the last is 4096 bytes, the last at most that. */
  predicate Blocks(h: nat, calls: seq<Call>) {
    && (forall i :: 0 <= i < |calls| ==> IsBlock(h, calls[i]))
    && (forall i :: 0 <= i < |calls| - 1 ==> |calls[i].data| == 4096)
  }

  lemma OneMoreBlock(h: nat, first: Call, rest: seq<Call>)
    requires IsBlock(h, first) && Blocks(h, rest) && (rest != [] ==> |first.data| == 4096)
    ensures Blocks(h, [first] + rest)
  {
    var calls := [first] + rest;
    forall i | 0 <= i < |calls| ensures IsBlock(h, calls[i]) && (i < |calls| - 1 ==> |calls[i].data| == 4096) {
      assert i > 0 ==> calls[i] == rest[i - 1];
    }
  }

  lemma {:induction false} BlocksAreBounded(h: nat, image: seq<byte>)
    ensures Blocks(h, BlockWrites(h, image))
    decreases |image|
  {
    if image != [] {
      var k := Min(|image|, WRITE_BUF);
      BlocksAreBounded(h, image[k..]);
      NoBlocks(h);
      OneMoreBlock(h, Call.Write(h, image[..k]), BlockWrites(h, image[k..]));
    }
  }

  lemma NoBlocks(h: nat)
    ensures BlockWrites(h, []) == []
  {
  }

  /** Two networks that both deliver the same bytes give the same transfer, successful or not. */
  lemma SegmentationDoesNotMatter(o: Ota, a: Net, b: Net, size: word, io: TcpIo)
    requires a.stream == b.stream && Delivered(a, size) && Delivered(b, size)
    ensures var s, t := Performed(o, a, size, io), Performed(o, b, size, io);
            s.ota == t.ota && s.lines == t.lines && s.err == t.err && s.restarted == t.restarted
            && s.net.stream == t.net.stream
  {
    hide Begun, Trailed, Streamed, Delivered, Aborted;
    if size != 0 {
      var o1 := Begun(o, size, 0, io.begin).0;
      SameBlocks(o1, a, b, size, 0, io.writes);
      var p, q := Streamed(o1, a, size, 0, io.writes), Streamed(o1, b, size, 0, io.writes);
      if p.Payload? {
        SameTrailer(p.ota, p.net, q.net, io.finish);
      }
    }
  }

  lemma {:induction false} SameBlocks(o: Ota, a: Net, b: Net, left: nat, i: nat, writes: seq<bool>)
    requires a.stream == b.stream && Delivered(a, left) && Delivered(b, left)
    ensures var p, q := Streamed(o, a, left, i, writes), Streamed(o, b, left, i, writes);
            && p.ota == q.ota && p.net.stream == q.net.stream && (p.Payload? <==> q.Payload?)
            && (p.Broken? ==> p.line == q.line && p.err == q.err)
            && (p.Payload? ==> Filled(p.net, 4).Full? && Filled(q.net, 4).Full?)
    decreases left
  {
    hide Filled, Written;
    if left > 0 {
      var want := Min(left, WRITE_BUF);
      FullTakesFromTheFront(a, want);
      FullTakesFromTheFront(b, want);
      SameBlocks(Written(o, a.stream[..want], WriteOk(writes, i)).0,
                 Filled(a, want).rest, Filled(b, want).rest, left - want, i + 1, writes);
    }
  }

  lemma SameTrailer(o: Ota, a: Net, b: Net, finish: FinishIo)
    requires a.stream == b.stream && Filled(a, 4).Full? && Filled(b, 4).Full?
    ensures var s, t := Trailed(o, a, finish), Trailed(o, b, finish);
            s.ota == t.ota && s.lines == t.lines && s.err == t.err && s.restarted == t.restarted
            && s.net.stream == t.net.stream
  {
    hide Filled, Finished;
    FullTakesFromTheFront(a, 4);
    FullTakesFromTheFront(b, 4);
  }

  /** At least need receives bring something before the connection fails or ends. */
  predicate Patient(plan: seq<RecvStep>, need: nat) {
    need == 0 ||
    (plan != [] && match plan[0]
                   case Take(n) => n > 0 && Patient(plan[1..], need - 1)
                   case Interrupted => Patient(plan[1..], need)
                   case _ => false)
  }

  lemma {:induction false} LessPatience(plan: seq<RecvStep>, need: nat, less: nat)
    requires Patient(plan, need) && less <= need
    ensures Patient(plan, less)
  {
    if less > 0 {
      if plan[0].Take? {
        LessPatience(plan[1..], need - 1, less - 1);
      } else {
        LessPatience(plan[1..], need, less);
      }
    }
  }

  lemma {:induction false} PatientFills(net: Net, len: nat, more: nat)
    requires Patient(net.plan, len + more) && len <= |net.stream|
    ensures Filled(net, len).Full? && Patient(Filled(net, len).rest.plan, more)
    decreases |net.plan|
  {
    if len > 0 {
      var r := RecvResult(net, len).0;
      if r > 0 {
        LessPatience(net.plan[1..], len + more - 1, len - r + more);
        PatientFills(AfterRecv(net, len), len - r, more);
      } else {
        PatientFills(AfterRecv(net, len), len, more);
      }
    }
  }

  /** A connection that keeps bringing bytes delivers, in whatever pieces and with whatever interruptions. */
  lemma {:induction false} PatientNetworkDelivers(net: Net, left: nat)
    requires Patient(net.plan, left + 4) && left + 4 <= |net.stream|
    ensures Delivered(net, left)
    decreases left
  {
    hide Filled, Patient;
    if left == 0 {
      PatientFills(net, 4, 0);
    } else {
      var want := Min(left, WRITE_BUF);
      PatientFills(net, want, left - want + 4);
      FullTakesFromTheFront(net, want);
      PatientNetworkDelivers(Filled(net, want).rest, left - want);
    }
  }

  // ---- the host ----

  const CHUNK := 16384
  const PROGRESS_EVERY := 262144

  /** The sending part of ota_tcp: the pieces handed to sendall, and the progress reported. */
  method SendImage(data: seq<byte>, crc: bv32) returns (sends: seq<seq<byte>>, reports: seq<nat>)
    ensures Flatten(sends) == data + Crc32.PackCrc(crc)
    ensures forall i :: 0 <= i < |sends| ==> 0 < |sends[i]| <= CHUNK
    ensures forall i, j :: 0 <= i < j < |reports| ==> reports[i] < reports[j]
    ensures data != [] ==> reports != [] && reports[|reports| - 1] == |data|
  {
    hide Crc32.PackCrc;
    sends, reports := [], [];
    var sent, last, off := 0, 0, 0;
    while off < |data|
      invariant 0 <= off && sent == Min(off, |data|) && Flatten(sends) == data[..sent]
      invariant forall i :: 0 <= i < |sends| ==> 0 < |sends[i]| <= CHUNK
      invariant last <= sent
      invariant forall i :: 0 <= i < |reports| ==> reports[i] <= last
      invariant forall i, j :: 0 <= i < j < |reports| ==> reports[i] < reports[j]
      invariant sent == |data| && data != [] ==> reports != [] && reports[|reports| - 1] == sent
    {
      var chunk := data[off..Min(off + CHUNK, |data|)];
      FlattenAppend(sends, [chunk]);
      assert Flatten([chunk]) == chunk + Flatten([]);
      assert data[..off] + chunk == data[..off + |chunk|];
      sends := sends + [chunk];
      sent := sent + |chunk|;
      if sent - last >= PROGRESS_EVERY || sent == |data| {
        reports := reports + [sent];
        last := sent;
      }
      off := off + CHUNK;
    }
    var trailer := Crc32.PackCrc(crc);
    PackedLength(crc);
    FlattenAppend(sends, [trailer]);
    assert Flatten([trailer]) == trailer + Flatten([]);
    assert data[..sent] == data;
    sends := sends + [trailer];
  }

  lemma PackedLength(crc: bv32)
    ensures |Crc32.PackCrc(crc)| == 4
  {
  }

  /** What the host sends, the device installs exactly when the checksum fits and the flash works. */
  lemma HostImageInstalled(o: Ota, image: seq<byte>, crc: bv32, plan: seq<RecvStep>, io: TcpIo)
    requires Consistent(o) && !o.s.active && 0 < |image| <= 0xFFFF_FFFF && Patient(plan, |image| + 4)
    ensures var t := Performed(o, Net(image + Crc32.PackCrc(crc), plan), |image|, io);
            && (t.restarted <==>
                  io.begin.slot.SlotOf? && |image| <= io.begin.slot.size && io.begin.beginOk && io.mallocOk
                  && BlocksOk(io.writes, 0, |image|) && io.finish.endOk && io.finish.bootOk
                  && Crc32.ChecksumFits(crc, image))
            && (t.restarted ==> Flashed(t.ota.dev.log) == image && t.net.stream == [])
  {
    hide Performed, Consistent, Delivered, Patient, BlocksOk, Crc32.ChecksumFits, Flashed, Crc32.PackCrc, Crc32.RdCrc;
    var wire := image + Crc32.PackCrc(crc);
    PackedLength(crc);
    assert wire[..|image|] == image && wire[|image|..|image| + 4] == Crc32.PackCrc(crc) && wire[|image| + 4..] == [];
    Crc32.CrcTrailerRoundTrip(crc);
    PatientNetworkDelivers(Net(wire, plan), |image|);
    SucceedsExactly(o, Net(wire, plan), |image|, io);
  }

  /** An image hit by a burst of at most four bytes is never installed, if the trailer was the device's own checksum. */
  lemma BurstNeverInstalled(o: Ota, image: seq<byte>, at: nat, k: nat, net: Net, io: TcpIo)
    requires Consistent(o) && !o.s.active && 0 < |image| <= 0xFFFF_FFFF
    requires |image| + 4 <= |net.stream| && k <= 4 && at + k <= |image|
    requires net.stream[..|image|][..at] == image[..at] && net.stream[..|image|][at + k..] == image[at + k..]
    requires net.stream[..|image|] != image
    requires Crc32.RdCrc(net.stream[|image|..|image| + 4]) == Crc32.Update(0, image) != 0
    ensures !Performed(o, net, |image|, io).restarted
  {
    hide Performed, Consistent, Delivered, BlocksOk, Crc32.RdCrc, Crc32.Update;
    SucceedsExactly(o, net, |image|, io);
    Crc32.BurstDetected(0, net.stream[..|image|], image, at, k);
  }
}
