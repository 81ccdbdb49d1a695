/** The host's framing of an image, and what any lossy delivery of its frames does to the device. */
module BleHost {
  import opened Bytes
  import opened OtaFlash
  import opened OtaSession
  import BleOta
  import Crc32
  import OtaHeader
  import opened Text

  /** Frame payload sizes whose frames fit a 16-bit write length; the host picks 8 to 180. */
  type Chunk = p: word | 0 < p <= 0xFFF9 witness 8

  /** The frames for what is left of the image, numbered from seqNo. */
  function Frames(rest: seq<byte>, p: Chunk, seqNo: word): seq<seq<byte>>
    requires seqNo + |rest| < 0x1_0000_0000
    decreases |rest|
  {
    if rest == [] then []
    else
      var k := Min(p, |rest|);
      [OtaHeader.Frame(seqNo, rest[..k])] + Frames(rest[k..], p, seqNo + 1)
  }

  function FramePayload(mtu: nat): Chunk {
    var m := if mtu == 0 then 23 else mtu;
    if m - 9 < 8 then 8 else if m - 9 > 180 then 180 else m - 9
  }

  /** One write to a characteristic; a refused one raises on the host. */
  datatype Attempt = Ctrl(line: seq<byte>, ok: bool) | Data(frame: seq<byte>, ok: bool)

  /** writes answers the attempts one by one; beyond its end they succeed. */
  predicate WriteOk(writes: seq<bool>, i: nat) {
    i < |writes| ==> writes[i]
  }

  /** The frames in order up to the first refused one, attempt i being the first of them. */
  function Tried(fs: seq<seq<byte>>, i: nat, writes: seq<bool>): (seq<Attempt>, bool)
    decreases |fs|
  {
    if fs == [] then ([], true)
    else if !WriteOk(writes, i) then ([Data(fs[0], false)], false)
    else
      var (rest, done) := Tried(fs[1..], i + 1, writes);
      ([Data(fs[0], true)] + rest, done)
  }

  /** Everything the upload attempts, and what it returns. */
  function Uploaded(start: seq<byte>, fs: seq<seq<byte>>, writes: seq<bool>): (seq<Attempt>, bool) {
    if !WriteOk(writes, 0) then ([Ctrl(start, false)], false)
    else
      var (frames, done) := Tried(fs, 1, writes);
      var last := if done then OtaHeader.FINISH else OtaHeader.ABORT;
      ([Ctrl(start, true)] + frames + [Ctrl(last, WriteOk(writes, 1 + |frames|))], done)
  }

  /**
   * ble_ota_upload. Once all frames went out the upload counts as a success
   * whatever becomes of FINISH, so that is never tried twice.
   */
  method Upload(data: seq<byte>, mtu: nat, writes: seq<bool>) returns (log: seq<Attempt>, ok: bool)
    requires |data| < 0x1_0000_0000
    ensures (log, ok) == Uploaded(OtaHeader.PrintStart(|data|, Crc32.HostCrc(data)),
                                  Frames(data, FramePayload(mtu), 0), writes)
  {
    hide Crc32.HostCrc, OtaHeader.PrintStart;
    var start := OtaHeader.PrintStart(|data|, Crc32.HostCrc(data));
    log := [Ctrl(start, WriteOk(writes, 0))];
    if !WriteOk(writes, 0) {
      return log, false;
    }
    var frames;
    frames, ok := SendFrames(data, FramePayload(mtu), writes);
    log := log + frames;
    var last := if ok then OtaHeader.FINISH else OtaHeader.ABORT;
    log := log + [Ctrl(last, WriteOk(writes, |log|))];
  }

  /** The DATA loop, up to its end or to the exception of a refused write. */
  method SendFrames(data: seq<byte>, framePayload: Chunk, writes: seq<bool>)
      returns (sent: seq<Attempt>, done: bool)
    requires |data| < 0x1_0000_0000
    ensures (sent, done) == Tried(Frames(data, framePayload, 0), 1, writes)
  {
    hide OtaHeader.Frame, WriteOk, Tried, Frames;
    var seqNo, off := 0, 0;
    sent := [];
    NothingTried(writes);
    ghost var all := Tried(Frames(data, framePayload, 0), 1, writes);
    assert data[0..] == data && [] + all.0 == all.0;
    while off < |data|
      invariant 0 <= seqNo <= off <= |data| && |sent| == seqNo
      invariant all.0 == sent + Tried(Frames(data[off..], framePayload, seqNo), 1 + seqNo, writes).0
      invariant all.1 == Tried(Frames(data[off..], framePayload, seqNo), 1 + seqNo, writes).1
    {
      var chunk := data[off..off + Min(framePayload, |data| - off)];
      assert data[off..][..|chunk|] == chunk && data[off..][|chunk|..] == data[off + |chunk|..];
      var frame := OtaHeader.Frame(seqNo, chunk);
      FrameFirst(data[off..], framePayload, seqNo);
      ghost var rest := Frames(data[off + |chunk|..], framePayload, seqNo + 1);
      TriedFirst(frame, rest, 1 + seqNo, writes);
      if !WriteOk(writes, 1 + seqNo) {
        return sent + [Data(frame, false)], false;
      }
      Associates(sent, [Data(frame, true)], Tried(rest, 2 + seqNo, writes).0);
      sent := sent + [Data(frame, true)];
      seqNo := seqNo + 1;
      off := off + |chunk|;
    }
    assert data[off..] == [] && sent + [] == sent;
    done := true;
  }

  lemma NothingTried(writes: seq<bool>)
    ensures forall p: Chunk, seqNo: word :: Frames([], p, seqNo) == []
    ensures forall i: nat :: Tried([], i, writes) == ([], true)
  {
  }

  lemma TriedFirst(f: seq<byte>, rest: seq<seq<byte>>, i: nat, writes: seq<bool>)
    ensures Tried([f] + rest, i, writes) ==
            if !WriteOk(writes, i) then ([Data(f, false)], false)
            else ([Data(f, true)] + Tried(rest, i + 1, writes).0, Tried(rest, i + 1, writes).1)
  {
    assert ([f] + rest)[1..] == rest;
  }

  lemma FrameFirst(rest: seq<byte>, p: Chunk, seqNo: word)
    requires rest != [] && seqNo + |rest| < 0x1_0000_0000
    ensures var k := Min(p, |rest|);
            Frames(rest, p, seqNo) == [OtaHeader.Frame(seqNo, rest[..k])] + Frames(rest[k..], p, seqNo + 1)
  {
  }

  /** A write carries at most mtu - 3 bytes; 23 is assumed for 0. Frames fit exactly from the smallest useful MTU on. */
  lemma FramesFitTheMtu(mtu: nat, seqNo: word, payload: seq<byte>)
    requires 0 < |payload| <= FramePayload(mtu)
    ensures 8 <= FramePayload(mtu) <= 180 && |OtaHeader.Frame(seqNo, payload)| <= 186
    ensures mtu >= 17 ==> |OtaHeader.Frame(seqNo, payload)| <= mtu - 3
    ensures mtu == 0 ==> |OtaHeader.Frame(seqNo, payload)| <= 20
    ensures FramePayload(mtu) + 6 <= (if mtu == 0 then 23 else mtu) - 3 <==> mtu == 0 || mtu >= 17
    ensures mtu >= 189 ==> FramePayload(mtu) == 180
    ensures 17 <= mtu <= 189 ==> FramePayload(mtu) + 6 == mtu - 3
  {
  }

  /** Attempts i up to end are all taken. */
  predicate AllTaken(i: nat, end: nat, writes: seq<bool>) {
    forall k :: i <= k < end ==> WriteOk(writes, k)
  }

  lemma {:induction false} TriedAll(fs: seq<seq<byte>>, i: nat, writes: seq<bool>)
    ensures Tried(fs, i, writes).1 <==> AllTaken(i, i + |fs|, writes)
    decreases |fs|
  {
    hide WriteOk;
    if fs != [] {
      TriedAll(fs[1..], i + 1, writes);
    }
  }

  /**
   * The upload ends, spelled out: a refused START ends it there; FINISH follows
   * exactly a complete upload and ABORT exactly a refused frame, each once and last.
   */
  lemma UploadEnds(start: seq<byte>, fs: seq<seq<byte>>, writes: seq<bool>)
    ensures var (log, ok) := Uploaded(start, fs, writes); var last := log[|log| - 1];
            && (ok <==> WriteOk(writes, 0) && AllTaken(1, 1 + |fs|, writes))
            && log[0] == Ctrl(start, WriteOk(writes, 0))
            && (!WriteOk(writes, 0) ==> |log| == 1)
            && (WriteOk(writes, 0) ==> |log| >= 2 && last.Ctrl?)
            && (ok ==> last.line == Ascii("BL_OTA FINISH"))
            && (WriteOk(writes, 0) && !ok ==> last.line == Ascii("BL_OTA ABORT"))
            && (forall k :: 0 < k < |log| - 1 ==> log[k].Data?)
  {
    OtaHeader.ControlWords();
    TriedAll(fs, 1, writes);
    var n := TriedInOrder(fs, 1, writes);
    hide Tried, AllTaken, Ascii, WriteOk;
  }

  /** What the attempts got through is a run of the frames from the first, all of them exactly on success. */
  lemma {:induction false} TriedInOrder(fs: seq<seq<byte>>, i: nat, writes: seq<bool>) returns (n: nat)
    ensures var (tried, done) := Tried(fs, i, writes);
            && n <= |fs| && (done <==> n == |fs|) && |tried| == (if done then n else n + 1)
            && (forall k :: 0 <= k < n ==> tried[k] == Data(fs[k], true))
            && (!done ==> tried[n] == Data(fs[n], false))
    decreases |fs|
  {
    if fs == [] || !WriteOk(writes, i) {
      n := 0;
    } else {
      var m := TriedInOrder(fs[1..], i + 1, writes);
      n := m + 1;
    }
  }

  // ---- what the frames are ----

  /** The payloads of a run of frames, joined. */
  function Joined(fs: seq<seq<byte>>): seq<byte>
    requires forall f :: f in fs ==> |f| >= 6
  {
    if fs == [] then [] else fs[0][6..] + Joined(fs[1..])
  }

  predicate WellFramed(fs: seq<seq<byte>>, first: nat) {
    forall j :: 0 <= j < |fs| ==>
      && 6 < |fs[j]| <= 0xFFFF && |fs[j]| == 6 + RdLe16(fs[j][4..])
      && RdLe32(fs[j]) == first + j
  }

  lemma WellFramedFirst(f: seq<byte>, tail: seq<seq<byte>>, first: nat)
    requires 6 < |f| <= 0xFFFF && |f| == 6 + RdLe16(f[4..]) && RdLe32(f) == first
    requires WellFramed(tail, first + 1)
    ensures WellFramed([f] + tail, first) && ([f] + tail)[1..] == tail
  {
    hide RdLe32, RdLe16;
    var fs := [f] + tail;
    forall j | 0 <= j < |fs|
      ensures 6 < |fs[j]| <= 0xFFFF && |fs[j]| == 6 + RdLe16(fs[j][4..]) && RdLe32(fs[j]) == first + j
    {
      assert j > 0 ==> fs[j] == tail[j - 1];
    }
  }

  lemma {:induction false} FramesSplitImage(rest: seq<byte>, p: Chunk, seqNo: word)
    requires seqNo + |rest| < 0x1_0000_0000
    ensures WellFramed(Frames(rest, p, seqNo), seqNo)
    ensures Joined(Frames(rest, p, seqNo)) == rest
    decreases |rest|
  {
    hide OtaHeader.Frame, RdLe32, RdLe16;
    if rest != [] {
      var k := Min(p, |rest|);
      FrameFirst(rest, p, seqNo);
      OtaHeader.FrameRoundTrip(seqNo, rest[..k]);
      FramesSplitImage(rest[k..], p, seqNo + 1);
      hide Frames, WellFramed;
      WellFramedFirst(OtaHeader.Frame(seqNo, rest[..k]), Frames(rest[k..], p, seqNo + 1), seqNo);
      assert rest == rest[..k] + rest[k..];
    }
  }

  lemma {:induction false} JoinedSnoc(fs: seq<seq<byte>>, k: nat)
    requires k < |fs| && forall f :: f in fs ==> |f| >= 6
    ensures Joined(fs[..k + 1]) == Joined(fs[..k]) + fs[k][6..]
    decreases k
  {
    if k == 0 {
      assert fs[..1][1..] == [];
    } else {
      JoinedSnoc(fs[1..], k - 1);
      assert fs[..k + 1][1..] == fs[1..][..k] && fs[..k][1..] == fs[1..][..k - 1];
      Associates(fs[0][6..], Joined(fs[1..][..k - 1]), fs[k][6..]);
    }
  }

  /** A proper prefix of the frames joins to a proper prefix of the image. */
  lemma {:induction false} JoinedShort(fs: seq<seq<byte>>, k: nat)
    requires k <= |fs| && forall f :: f in fs ==> |f| > 6
    ensures |Joined(fs[..k])| <= |Joined(fs)|
    ensures k < |fs| ==> |Joined(fs[..k])| < |Joined(fs)|
    ensures Joined(fs[..k]) <= Joined(fs)
    decreases |fs|
  {
    if k > 0 {
      JoinedShort(fs[1..], k - 1);
      assert fs[..k][1..] == fs[1..][..k - 1];
    }
  }

  // ---- deliveries ----

  datatype Delivery = Delivery(frame: Buffer, writeOk: bool, finish: FinishIo)

  function Deliver(s: BleOta.Ble, ds: seq<Delivery>): BleOta.Ble
    decreases |ds|
  {
    if ds == [] then s
    else Deliver(BleOta.Step(s, BleOta.Data(ds[0].frame, ds[0].writeOk, ds[0].finish)), ds[1..])
  }

  predicate FromHost(ds: seq<Delivery>, fs: seq<seq<byte>>) {
    forall i :: 0 <= i < |ds| ==> ds[i].frame in fs
  }

  predicate WritesSucceed(ds: seq<Delivery>) {
    forall i :: 0 <= i < |ds| ==> ds[i].writeOk
  }

  function FramesOf(ds: seq<Delivery>): seq<seq<byte>> {
    seq(|ds|, i requires 0 <= i < |ds| => ds[i].frame)
  }

  /** The frames of one image, as the host makes them. */
  predicate HostFrames(fs: seq<seq<byte>>) {
    WellFramed(fs, 0) && fs != []
  }

  /** Mid-transfer with exactly the first k frames on the flash. */
  ghost predicate Receiving(s: BleOta.Ble, fs: seq<seq<byte>>, k: nat)
    requires HostFrames(fs)
  {
    && BleOta.Lockstep(s) && s.bo.active && k < |fs|
    && s.bo.total == |Joined(fs)| && s.bo.expectSeq == k
    && Flashed(s.ota.dev.log) == Joined(fs[..k])
  }

  /** The transfer is over, the first k frames on the flash. */
  ghost predicate Over(s: BleOta.Ble, fs: seq<seq<byte>>, k: nat)
    requires HostFrames(fs)
  {
    && BleOta.Lockstep(s) && !s.bo.active && k <= |fs|
    && Flashed(s.ota.dev.log) == Joined(fs[..k])
  }

  /** A frame that is not the next one changes nothing at all. */
  lemma OtherFrameDropped(s: BleOta.Ble, fs: seq<seq<byte>>, k: nat, d: Delivery)
    requires HostFrames(fs) && Receiving(s, fs, k) && d.frame in fs && d.frame != fs[k]
    ensures BleOta.Step(s, BleOta.Data(d.frame, d.writeOk, d.finish)) == s
  {
    hide RdLe32, RdLe16, BleOta.Lockstep, Flashed, Joined;
    var j :| 0 <= j < |fs| && fs[j] == d.frame;
    assert RdLe32(fs[j]) == j;
    BleOta.Untaken(s, d.frame, d.writeOk, d.finish);
  }

  /** Frame k carries on the image where the first k frames stop; only the last one completes it. */
  lemma FrameCarriesOn(fs: seq<seq<byte>>, k: nat)
    requires HostFrames(fs) && k < |fs|
    ensures Joined(fs[..k + 1]) == Joined(fs[..k]) + fs[k][6..] && |Joined(fs[..k + 1])| <= |Joined(fs)|
    ensures |Joined(fs[..k + 1])| == |Joined(fs)| <==> k + 1 == |fs|
    ensures k + 1 == |fs| ==> Joined(fs[..k + 1]) == Joined(fs)
  {
    hide Joined, RdLe32, RdLe16;
    JoinedSnoc(fs, k);
    JoinedShort(fs, k + 1);
    assert fs[..|fs|] == fs;
  }

  /** The next frame in line, as the device sees it. */
  lemma NextFrameIsTaken(s: BleOta.Ble, fs: seq<seq<byte>>, k: nat, d: Delivery)
    requires HostFrames(fs) && Receiving(s, fs, k) && d.frame == fs[k]
    ensures BleOta.Takes(s.bo, d.frame) && |d.frame| > 6
    ensures s.bo.written == |Joined(fs[..k])| && !s.restarted
  {
    hide BleOta.Lockstep, Joined, Flashed, RdLe32, RdLe16;
    FrameCarriesOn(fs, k);
    WrittenIsFlashed(s);
  }

  lemma NextFrameTaken(s: BleOta.Ble, fs: seq<seq<byte>>, k: nat, d: Delivery)
    requires HostFrames(fs) && Receiving(s, fs, k) && d.frame == fs[k]
    ensures var t := BleOta.Step(s, BleOta.Data(d.frame, d.writeOk, d.finish));
            && (if !d.writeOk then Over(t, fs, k)
                else if k + 1 < |fs| then Receiving(t, fs, k + 1)
                else Over(t, fs, k + 1))
            && (d.writeOk && k + 1 < |fs| ==> t.bo.expectCrc == s.bo.expectCrc)
            && (t.restarted <==> d.writeOk && k + 1 == |fs| && d.finish.endOk && d.finish.bootOk
                                 && Crc32.ChecksumFits(s.bo.expectCrc, Joined(fs)))
  {
    hide BleOta.Lockstep, BleOta.DataWritten, BleOta.Takes, Joined, Flashed, WellFramed, Crc32.ChecksumFits;
    FrameCarriesOn(fs, k);
    NextFrameIsTaken(s, fs, k, d);
    BleOta.TakenFrame(s, d.frame, d.writeOk, d.finish);
    BleOta.TakenFrameRestarts(s, d.frame, d.writeOk, d.finish);
    assert fs[..k + 1][..k] == fs[..k];
  }

  lemma WrittenIsFlashed(s: BleOta.Ble)
    requires BleOta.Lockstep(s) && s.bo.active
    ensures s.bo.written == |Flashed(s.ota.dev.log)| && !s.restarted && s.bo.total <= 0xFFFF_0000
  {
  }

  lemma {:induction false} IdleIgnoresFrames(s: BleOta.Ble, ds: seq<Delivery>)
    requires !s.bo.active
    ensures Deliver(s, ds) == s
    decreases |ds|
  {
    if ds != [] {
      IdleIgnoresFrames(s, ds[1..]);
    }
  }

  /**
   * Safety on a lossy channel: however the host's frames are lost, repeated or
   * reordered and whichever flash writes fail, the flash always holds exactly
   * the image prefix made of the first k frames, k being the next expected number.
   */
  lemma {:induction false} FlashIsAlwaysAPrefix(s: BleOta.Ble, fs: seq<seq<byte>>, k: nat, ds: seq<Delivery>)
      returns (n: nat)
    requires HostFrames(fs) && Receiving(s, fs, k) && FromHost(ds, fs)
    ensures k <= n <= |fs| && (Receiving(Deliver(s, ds), fs, n) || Over(Deliver(s, ds), fs, n))
    decreases |ds|
  {
    hide BleOta.Step, BleOta.Lockstep, Joined, Flashed, WellFramed;
    if ds == [] {
      n := k;
    } else {
      var t := BleOta.Step(s, BleOta.Data(ds[0].frame, ds[0].writeOk, ds[0].finish));
      if ds[0].frame != fs[k] {
        OtherFrameDropped(s, fs, k, ds[0]);
        n := FlashIsAlwaysAPrefix(s, fs, k, ds[1..]);
      } else {
        NextFrameTaken(s, fs, k, ds[0]);
        if Receiving(t, fs, k + 1) {
          n := FlashIsAlwaysAPrefix(t, fs, k + 1, ds[1..]);
        } else {
          n := if ds[0].writeOk then k + 1 else k;
          IdleIgnoresFrames(t, ds[1..]);
        }
      }
    }
  }

  // ---- completeness: the frames in order, as a subsequence ----

  /** idx picks the elements of a, in order, out of b. */
  predicate Embedding<T(==)>(a: seq<T>, b: seq<T>, idx: seq<nat>) {
    && |idx| == |a|
    && (forall i :: 0 <= i < |a| ==> idx[i] < |b| && b[idx[i]] == a[i])
    && (forall i, j :: 0 <= i < j < |a| ==> idx[i] < idx[j])
  }

  ghost predicate InOrder<T>(a: seq<T>, b: seq<T>) {
    exists idx :: Embedding(a, b, idx)
  }

  /** How far a receiver gets that only takes the next frame in line. */
  function Progress(fs: seq<seq<byte>>, k: nat, got: seq<seq<byte>>): nat
    requires k <= |fs|
    decreases |got|
  {
    if got == [] then k
    else if k < |fs| && got[0] == fs[k] then Progress(fs, k + 1, got[1..])
    else Progress(fs, k, got[1..])
  }

  lemma {:induction false} ProgressEmbeds(fs: seq<seq<byte>>, k: nat, got: seq<seq<byte>>) returns (idx: seq<nat>)
    requires k <= |fs|
    ensures k <= Progress(fs, k, got) <= |fs|
    ensures Embedding(fs[k..Progress(fs, k, got)], got, idx)
    decreases |got|
  {
    var n := Progress(fs, k, got);
    if got == [] {
      idx := [];
    } else if k < |fs| && got[0] == fs[k] {
      var rest := ProgressEmbeds(fs, k + 1, got[1..]);
      idx := [0] + Later(rest);
      assert fs[k..n][1..] == fs[k + 1..n];
    } else {
      var rest := ProgressEmbeds(fs, k, got[1..]);
      idx := Later(rest);
    }
  }

  function Later(idx: seq<nat>): seq<nat> {
    seq(|idx|, i requires 0 <= i < |idx| => idx[i] + 1)
  }

  function Earlier(idx: seq<nat>): seq<nat>
    requires forall i :: 0 <= i < |idx| ==> idx[i] > 0
  {
    seq(|idx|, i requires 0 <= i < |idx| => idx[i] - 1)
  }

  /** Taking frames greedily loses nothing: any embedding is matched. */
  lemma {:induction false} EmbeddingBoundsProgress(
      fs: seq<seq<byte>>, k: nat, m: nat, got: seq<seq<byte>>, idx: seq<nat>)
    requires k <= m <= |fs| && Embedding(fs[k..m], got, idx)
    ensures Progress(fs, k, got) >= m
    decreases |got|
  {
    if k == m {
      var _ := ProgressEmbeds(fs, k, got);
    } else {
      var want := fs[k..m];
      assert want[0] == fs[k] && idx[0] < |got|;
      if got[0] == fs[k] {
        var tail := idx[1..];
        assert fs[k + 1..m] == want[1..];
        forall i | 0 <= i < |tail| ensures tail[i] > 0 && tail[i] == idx[i + 1] {
          assert idx[0] < idx[i + 1];
        }
        assert Embedding(fs[k + 1..m], got[1..], Earlier(tail));
        EmbeddingBoundsProgress(fs, k + 1, m, got[1..], Earlier(tail));
      } else {
        assert idx[0] > 0;
        forall i | 0 <= i < |idx| ensures idx[i] > 0 {
          assert i > 0 ==> idx[0] < idx[i];
        }
        assert Embedding(want, got[1..], Earlier(idx));
        EmbeddingBoundsProgress(fs, k, m, got[1..], Earlier(idx));
      }
    }
  }

  /** With every flash write succeeding, the device is exactly the greedy receiver. */
  lemma {:induction false} DeviceIsGreedy(s: BleOta.Ble, fs: seq<seq<byte>>, k: nat, ds: seq<Delivery>)
    requires HostFrames(fs) && Receiving(s, fs, k) && FromHost(ds, fs) && WritesSucceed(ds)
    ensures var n := Progress(fs, k, FramesOf(ds)); var t := Deliver(s, ds);
            if n < |fs| then Receiving(t, fs, n) else Over(t, fs, |fs|)
    decreases |ds|
  {
    hide BleOta.Step, BleOta.Lockstep, Joined, Flashed, WellFramed;
    if ds != [] {
      var t := BleOta.Step(s, BleOta.Data(ds[0].frame, ds[0].writeOk, ds[0].finish));
      assert FramesOf(ds)[1..] == FramesOf(ds[1..]);
      if ds[0].frame != fs[k] {
        OtherFrameDropped(s, fs, k, ds[0]);
        DeviceIsGreedy(s, fs, k, ds[1..]);
      } else {
        NextFrameTaken(s, fs, k, ds[0]);
        if k + 1 < |fs| {
          DeviceIsGreedy(t, fs, k + 1, ds[1..]);
        } else {
          IdleIgnoresFrames(t, ds[1..]);
          NoProgressBeyondEnd(fs, FramesOf(ds[1..]));
        }
      }
    }
  }

  lemma {:induction false} NoProgressBeyondEnd(fs: seq<seq<byte>>, got: seq<seq<byte>>)
    ensures Progress(fs, |fs|, got) == |fs|
    decreases |got|
  {
    if got != [] {
      NoProgressBeyondEnd(fs, got[1..]);
    }
  }

  // ---- the two theorems, from the host's START on ----

  /** The host's own START line, accepted by an idle device in recovery, opens exactly this transfer. */
  lemma StartOpensTransfer(s: BleOta.Ble, image: seq<byte>, crc: bv32, p: Chunk, begin: BeginIo, finish: FinishIo)
    requires BleOta.Lockstep(s) && !s.restarted && !s.bo.active
    requires 0 < |image| < 0x1_0000_0000
    requires begin.slot.SlotOf? && |image| <= begin.slot.size && begin.beginOk
    ensures var t := BleOta.CtrlWritten(s, OtaHeader.PrintStart(|image|, crc), true, begin, finish);
            var fs := Frames(image, p, 0);
            HostFrames(fs) && Joined(fs) == image && Receiving(t, fs, 0) && t.bo.expectCrc == crc
  {
    var line := OtaHeader.PrintStart(|image|, crc);
    OtaHeader.StartRoundTrip(|image|, crc);
    FramesSplitImage(image, p, 0);
    BleOta.StartedLockstep(s, line[|OtaHeader.START|..], true, begin);
    BegunEmpty(s.ota, |image|, crc, begin);
    hide OtaHeader.PrintStart, OtaHeader.ParseStart, OtaHeader.CtrlLine, Flashed, Consistent, Frames, WellFramed;
    assert OtaHeader.START <= line;
    assert Joined(Frames(image, p, 0)[..0]) == [];
  }

  lemma AbortBegins()
    ensures OtaHeader.Begins(Ascii("BL_OTA ABORT"), Ascii("BL_OTA ABORT"))
  {
  }

  /**
   * What the host does after a refused frame makes room again: its ABORT line ends
   * the transfer and gives the handle back, and its next START opens a new one.
   */
  lemma AbortMakesRoom(s: BleOta.Ble, image: seq<byte>, crc: bv32, p: Chunk, begin: BeginIo, finish: FinishIo)
    requires BleOta.Lockstep(s) && !s.restarted && s.bo.active
    requires 0 < |image| < 0x1_0000_0000
    requires begin.slot.SlotOf? && |image| <= begin.slot.size && begin.beginOk
    ensures var idle := BleOta.CtrlWritten(s, Ascii("BL_OTA ABORT"), true, begin, finish);
            && BleOta.Dropping(s, idle, BleOta.OkAborted)
            && var t := BleOta.CtrlWritten(idle, OtaHeader.PrintStart(|image|, crc), true, begin, finish);
               HostFrames(Frames(image, p, 0)) && Receiving(t, Frames(image, p, 0), 0)
  {
    var line := Ascii("BL_OTA ABORT");
    AbortBegins();
    hide BleOta.CtrlWritten, BleOta.Lockstep, Frames, Ascii, OtaHeader.PrintStart, OtaHeader.Begins;
    BleOta.AbortLine(s, line, true, begin, finish);
    BleOta.CtrlLockstep(s, line, true, begin, finish);
    var idle := BleOta.CtrlWritten(s, line, true, begin, finish);
    StartOpensTransfer(idle, image, crc, p, begin, finish);
  }

  lemma BegunEmpty(o: Ota, total: word, crc: bv32, io: BeginIo)
    requires total != 0 && !o.s.active && io.slot.SlotOf? && total <= io.slot.size && io.beginOk
    ensures Begun(o, total, crc, io).1 == Ok && Flashed(Begun(o, total, crc, io).0.dev.log) == []
  {
    hide Flashed;
    Appended(o.dev.log, Call.Begin(o.dev.handles + 1, total));
  }

  /**
   * Lossy channel, exactly: with flash writes succeeding and no control event or
   * disconnect, the transfer runs to the last byte if and only if the host's
   * frames occur in order among the deliveries; the flash then holds the image,
   * and otherwise the frames before the next expected number.
   */
  lemma LastByteExactlyWhenInOrder(s: BleOta.Ble, image: seq<byte>, p: Chunk, ds: seq<Delivery>)
    requires 0 < |image| < 0x1_0000_0000
    requires HostFrames(Frames(image, p, 0)) && Receiving(s, Frames(image, p, 0), 0)
    requires FromHost(ds, Frames(image, p, 0)) && WritesSucceed(ds)
    ensures var t, fs := Deliver(s, ds), Frames(image, p, 0);
            && (!t.bo.active <==> InOrder(fs, FramesOf(ds)))
            && (if t.bo.active
                then t.bo.expectSeq < |fs| && Flashed(t.ota.dev.log) == Joined(fs[..t.bo.expectSeq])
                else Flashed(t.ota.dev.log) == image)
  {
    var fs := Frames(image, p, 0);
    FramesSplitImage(image, p, 0);
    DeviceIsGreedy(s, fs, 0, ds);
    ProgressDecides(fs, FramesOf(ds));
    hide Frames, Joined, Flashed, BleOta.Lockstep, WellFramed, Deliver, Progress, InOrder, FramesOf;
    assert fs[..|fs|] == fs;
  }

  /** Taking each frame when it comes gets to the end exactly when all occur in order. */
  lemma ProgressDecides(fs: seq<seq<byte>>, got: seq<seq<byte>>)
    ensures Progress(fs, 0, got) <= |fs|
    ensures Progress(fs, 0, got) == |fs| <==> InOrder(fs, got)
  {
    var idx := ProgressEmbeds(fs, 0, got);
    hide Progress, Embedding;
    assert fs[0..|fs|] == fs;
    if Progress(fs, 0, got) < |fs| && InOrder(fs, got) {
      var all :| Embedding(fs, got, all);
      EmbeddingBoundsProgress(fs, 0, |fs|, got, all);
    }
  }

  predicate FinishesSucceed(ds: seq<Delivery>) {
    forall i :: 0 <= i < |ds| ==> ds[i].finish.endOk && ds[i].finish.bootOk
  }

  /** With the device working, it restarts exactly when it got to the last frame and the checksum fits. */
  lemma {:induction false} RestartsWhenDone(s: BleOta.Ble, fs: seq<seq<byte>>, k: nat, ds: seq<Delivery>)
    requires HostFrames(fs) && Receiving(s, fs, k) && FromHost(ds, fs) && WritesSucceed(ds) && FinishesSucceed(ds)
    ensures Deliver(s, ds).restarted <==>
            Progress(fs, k, FramesOf(ds)) == |fs| && Crc32.ChecksumFits(s.bo.expectCrc, Joined(fs))
    decreases |ds|
  {
    hide BleOta.Step, BleOta.Lockstep, Joined, Flashed, WellFramed, Crc32.ChecksumFits;
    WrittenIsFlashed(s);
    if ds != [] {
      var t := BleOta.Step(s, BleOta.Data(ds[0].frame, ds[0].writeOk, ds[0].finish));
      assert FramesOf(ds)[1..] == FramesOf(ds[1..]);
      if ds[0].frame != fs[k] {
        OtherFrameDropped(s, fs, k, ds[0]);
        RestartsWhenDone(s, fs, k, ds[1..]);
      } else {
        NextFrameTaken(s, fs, k, ds[0]);
        if k + 1 < |fs| {
          RestartsWhenDone(t, fs, k + 1, ds[1..]);
        } else {
          IdleIgnoresFrames(t, ds[1..]);
          NoProgressBeyondEnd(fs, FramesOf(ds[1..]));
        }
      }
    }
  }

  /**
   * The host's upload over a lossy channel to a device that works: the device
   * restarts, with exactly the image on its flash, if and only if the frames
   * occur in order among the deliveries and the checksum in START fits.
   */
  lemma HostImageInstalled(s: BleOta.Ble, image: seq<byte>, crc: bv32, p: Chunk, begin: BeginIo, finish: FinishIo,
                           ds: seq<Delivery>)
    requires BleOta.Lockstep(s) && !s.restarted && !s.bo.active && 0 < |image| < 0x1_0000_0000
    requires begin.slot.SlotOf? && |image| <= begin.slot.size && begin.beginOk
    requires FromHost(ds, Frames(image, p, 0)) && WritesSucceed(ds) && FinishesSucceed(ds)
    ensures var t := Deliver(BleOta.CtrlWritten(s, OtaHeader.PrintStart(|image|, crc), true, begin, finish), ds);
            && (t.restarted <==>
                  InOrder(Frames(image, p, 0), FramesOf(ds)) && Crc32.ChecksumFits(crc, image))
            && (t.restarted ==> Flashed(t.ota.dev.log) == image)
  {
    var fs := Frames(image, p, 0);
    var s1 := BleOta.CtrlWritten(s, OtaHeader.PrintStart(|image|, crc), true, begin, finish);
    StartOpensTransfer(s, image, crc, p, begin, finish);
    hide BleOta.CtrlWritten, BleOta.Lockstep, Frames, Joined, Flashed, WellFramed, Deliver, Progress, InOrder, FramesOf,
         OtaHeader.PrintStart, Crc32.ChecksumFits;
    RestartsWhenDone(s1, fs, 0, ds);
    ProgressDecides(fs, FramesOf(ds));
    LastByteExactlyWhenInOrder(s1, image, p, ds);
    DeviceIsGreedy(s1, fs, 0, ds);
  }

  /** Whatever fails, what is on the flash is a prefix of the image. */
  lemma NeverAnythingButThePrefix(s: BleOta.Ble, image: seq<byte>, p: Chunk, ds: seq<Delivery>)
    requires 0 < |image| < 0x1_0000_0000
    requires HostFrames(Frames(image, p, 0)) && Receiving(s, Frames(image, p, 0), 0)
    requires FromHost(ds, Frames(image, p, 0))
    ensures var t, fs := Deliver(s, ds), Frames(image, p, 0);
            && Flashed(t.ota.dev.log) <= image
            && (t.bo.active ==> t.bo.expectSeq < |fs| && Flashed(t.ota.dev.log) == Joined(fs[..t.bo.expectSeq]))
  {
    var fs := Frames(image, p, 0);
    FramesSplitImage(image, p, 0);
    var n := FlashIsAlwaysAPrefix(s, fs, 0, ds);
    JoinedShort(fs, n);
  }
}
