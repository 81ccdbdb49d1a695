/** Command lines put together from bytes: in chunks over TCP, byte by byte over BLE. */
module LineAssembler {
  import opened Bytes
  import opened Text
  import opened CommandDispatch

  const LINE_SIZE := 128

  /** What both transports store in a line: at most 127 bytes. */
  const LINE_KEEP := 127

  // ---- what the lines of a stream are ----

  function IndexOf(s: seq<byte>, c: byte): (k: nat)
    ensures k <= |s| && (k < |s| ==> s[k] == c) && c !in s[..k]
  {
    if s == [] || s[0] == c then 0
    else
      var k := IndexOf(s[1..], c);
      assert s[..1 + k] == [s[0]] + s[1..][..k];
      1 + k
  }

  /** The bytes between line feeds. */
  function Terminated(s: seq<byte>): seq<seq<byte>>
    decreases |s|
  {
    var k := IndexOf(s, LF);
    if k == |s| then [] else [s[..k]] + Terminated(s[k + 1..])
  }

  /** The bytes after the last line feed. */
  function Unterminated(s: seq<byte>): seq<byte>
    decreases |s|
  {
    var k := IndexOf(s, LF);
    if k == |s| then s else Unterminated(s[k + 1..])
  }

  function WithoutCr(s: seq<byte>): seq<byte> {
    if s == [] then [] else (if s[0] == CR then [] else [s[0]]) + WithoutCr(s[1..])
  }

  function Cut(s: seq<byte>): seq<byte> {
    s[..Min(|s|, LINE_KEEP)]
  }

  /** Carriage returns dropped, the first 127 bytes of the rest kept. */
  function Kept(raw: seq<byte>): seq<byte> {
    Cut(WithoutCr(raw))
  }

  /** Empty lines are skipped. */
  function LineDone(l: Link, line: seq<byte>, saves: seq<bool>): Link {
    if line == [] then l else Dispatched(l, line, saves)
  }

  function AllDone(l: Link, raws: seq<seq<byte>>, saves: seq<bool>): Link
    decreases |raws|
  {
    if raws == [] then l else AllDone(LineDone(l, Kept(raws[0]), saves), raws[1..], saves)
  }

  // ---- one byte ----

  /** The line so far and the link. */
  datatype Asm = Asm(line: seq<byte>, link: Link)

  function Stored(line: seq<byte>, c: byte): seq<byte> {
    if c == CR || |line| >= LINE_KEEP then line else line + [c]
  }

  function Fed(a: Asm, c: byte, saves: seq<bool>): Asm {
    if c == LF then Asm([], LineDone(a.link, a.line, saves)) else a.(line := Stored(a.line, c))
  }

  function FedAll(a: Asm, s: seq<byte>, saves: seq<bool>): Asm
    decreases |s|
  {
    if s == [] then a else FedAll(Fed(a, s[0], saves), s[1..], saves)
  }

  lemma {:induction false} FedJoins(a: Asm, s: seq<byte>, t: seq<byte>, saves: seq<bool>)
    ensures FedAll(a, s + t, saves) == FedAll(FedAll(a, s, saves), t, saves)
    decreases |s|
  {
    hide Fed;
    if s == [] {
      assert s + t == t;
    } else {
      assert (s + t)[1..] == s[1..] + t;
      FedJoins(Fed(a, s[0], saves), s[1..], t, saves);
    }
  }

  /** The line buffer, the bytes read so far on top of it. */
  function Grown(line: seq<byte>, raw: seq<byte>): seq<byte>
    decreases |raw|
  {
    if raw == [] then line else Grown(Stored(line, raw[0]), raw[1..])
  }

  lemma {:induction false} GrownMore(line: seq<byte>, raw: seq<byte>, c: byte)
    ensures Grown(line, raw + [c]) == Stored(Grown(line, raw), c)
    decreases |raw|
  {
    hide Stored;
    if raw == [] {
      assert raw + [c] == [c] && [c][1..] == [];
    } else {
      assert (raw + [c])[1..] == raw[1..] + [c];
      GrownMore(Stored(line, raw[0]), raw[1..], c);
    }
  }

  lemma {:induction false} GrownIs(line: seq<byte>, raw: seq<byte>)
    requires |line| <= LINE_KEEP
    ensures Grown(line, raw) == Cut(line + WithoutCr(raw))
    decreases |raw|
  {
    hide Cut;
    if raw == [] {
      CutShort(line);
      assert line + [] == line;
    } else {
      GrownIs(Stored(line, raw[0]), raw[1..]);
      CutShort(line);
      if raw[0] != CR && |line| == LINE_KEEP {
        CutFull(line, WithoutCr(raw));
        CutFull(line, WithoutCr(raw[1..]));
      } else if raw[0] != CR {
        Associates(line, [raw[0]], WithoutCr(raw[1..]));
      } else {
        assert [] + WithoutCr(raw[1..]) == WithoutCr(raw[1..]);
      }
    }
  }

  lemma CutShort(line: seq<byte>)
    requires |line| <= LINE_KEEP
    ensures Cut(line) == line
  {
  }

  lemma CutFull(line: seq<byte>, more: seq<byte>)
    requires |line| == LINE_KEEP
    ensures Cut(line + more) == line
  {
  }

  lemma KeptIsGrown(raw: seq<byte>)
    ensures Kept(raw) == Grown([], raw)
  {
    GrownIs([], raw);
    assert [] + WithoutCr(raw) == WithoutCr(raw);
  }

  lemma {:induction false} FedWithinLine(a: Asm, raw: seq<byte>, saves: seq<bool>)
    requires LF !in raw
    ensures FedAll(a, raw, saves) == a.(line := Grown(a.line, raw))
    decreases |raw|
  {
    hide Stored;
    if raw != [] {
      assert raw[0] in raw;
      assert LF !in raw[1..];
      FedWithinLine(Fed(a, raw[0], saves), raw[1..], saves);
    }
  }

  /**
   * Byte-wise assembly is the simple reading: split at LF, drop CR, keep 127
   * bytes, skip empty lines, and hold the unterminated rest.
   */
  lemma {:induction false} AssemblyIsSplitting(l: Link, s: seq<byte>, saves: seq<bool>)
    ensures FedAll(Asm([], l), s, saves) == Asm(Kept(Unterminated(s)), AllDone(l, Terminated(s), saves))
    decreases |s|
  {
    hide WithoutCr, Dispatched, Grown;
    var k := IndexOf(s, LF);
    var raw, start := s[..k], Asm([], l);
    FedWithinLine(start, raw, saves);
    KeptIsGrown(raw);
    if k == |s| {
      assert raw == s;
    } else {
      assert s == raw + s[k..] && s[k..][1..] == s[k + 1..];
      FedJoins(start, raw, s[k..], saves);
      AssemblyIsSplitting(LineDone(l, Kept(raw), saves), s[k + 1..], saves);
      assert ([raw] + Terminated(s[k + 1..]))[1..] == Terminated(s[k + 1..]);
    }
  }

  /** Without carriage returns a line is kept up to its 127th byte. */
  lemma LinesOf127(raw: seq<byte>)
    requires CR !in raw
    ensures Kept(raw) == raw[..Min(|raw|, 127)]
  {
    NoCrToDrop(raw);
  }

  lemma {:induction false} NoCrToDrop(s: seq<byte>)
    requires CR !in s
    ensures WithoutCr(s) == s
    decreases |s|
  {
    if s != [] {
      assert s == [s[0]] + s[1..];
      NoCrToDrop(s[1..]);
    }
  }

  /** A connection that has just come up, and one that has just gone. */
  function Linked(token: seq<byte>): Asm {
    Asm([], Link(false, token, []))
  }

  function Dropped(l: Link): Asm {
    Asm([], l.(authed := false))
  }

  // ---- BLE ----

  class BleCmd {
    const line: array<byte>
    var len: nat
    const ctx: CmdCtx

    ghost predicate Valid()
      reads this
    {
      line.Length == LINE_SIZE && len <= LINE_KEEP
    }

    /** ble_cmd_create: everything starts from zero. */
    constructor (token: seq<byte>, saves: seq<bool>)
      ensures Valid() && fresh(line) && fresh(ctx) && ctx.saves == saves
      ensures State() == Linked(token)
    {
      line := new byte[LINE_SIZE](_ => 0);
      len := 0;
      ctx := new CmdCtx(token, saves);
    }

    function State(): Asm
      requires Valid()
      reads this, line, ctx
    {
      Asm(line[..len], ctx.State())
    }

    method OnConnect()
      requires Valid()
      modifies `len, ctx
      ensures Valid() && State() == Linked(old(ctx.token))
    {
      len := 0;
      ctx.authed := false;
      ctx.acts := [];
    }

    method OnRx(data: seq<byte>)
      requires Valid()
      modifies `len, line, ctx
      ensures Valid()
      ensures State() == FedAll(old(State()), data, ctx.saves)
    {
      hide Dispatched;
      for i := 0 to |data|
        invariant Valid()
        invariant FedAll(State(), data[i..], ctx.saves) == old(FedAll(State(), data, ctx.saves))
      {
        assert data[i..][0] == data[i] && data[i..][1..] == data[i + 1..];
        var c := data[i];
        if c == CR {
          continue;
        }
        if c != LF {
          if len < line.Length - 1 {
            line[len] := c;
            len := len + 1;
            assert line[..len] == line[..len - 1] + [c];
          }
          continue;
        }
        line[len] := NUL;
        if len != 0 {
          ctx.DispatchLine(line, len);
        }
        len := 0;
      }
    }

    method OnDisconnect()
      requires Valid()
      modifies `len, ctx`authed
      ensures Valid() && State() == Dropped(old(ctx.State()))
    {
      len := 0;
      ctx.authed := false;
    }
  }

  // ---- TCP ----

  /** memchr: the first c at or after from, or the end. */
  method MemChr(p: seq<byte>, from: nat, c: byte) returns (k: nat)
    requires from <= |p|
    ensures k - from == IndexOf(p[from..], c) && from <= k <= |p|
  {
    k := from;
    while k < |p| && p[k] != c
      invariant from <= k <= |p| && IndexOf(p[from..], c) == k - from + IndexOf(p[k..], c)
    {
      assert p[k..][1..] == p[k + 1..];
      k := k + 1;
    }
  }

  /** One turn of the chunk loop: the bytes up to the line feed, then the line feed. */
  lemma ChunkStep(a: Asm, buf: seq<byte>, p: nat, nl: nat, saves: seq<bool>)
    requires p <= nl <= |buf| && nl - p == IndexOf(buf[p..], LF)
    ensures var b := a.(line := Grown(a.line, buf[p..nl]));
            && FedAll(a, buf[p..], saves) == FedAll(b, buf[nl..], saves)
            && (nl < |buf| ==> FedAll(b, buf[nl..], saves) == FedAll(Fed(b, LF, saves), buf[nl + 1..], saves))
  {
    var raw, rest := buf[p..nl], buf[nl..];
    assert buf[p..] == raw + rest && buf[p..][..nl - p] == raw;
    assert nl < |buf| ==> rest[0] == buf[p..][nl - p] == LF && rest[1..] == buf[nl + 1..];
    assert LF !in raw;
    hide Fed, Grown, IndexOf;
    FedJoins(a, raw, rest, saves);
    FedWithinLine(a, raw, saves);
  }

  class TcpClient {
    const line: array<byte>
    var linelen: nat
    const ctx: CmdCtx

    ghost predicate Valid()
      reads this
    {
      line.Length == LINE_SIZE && linelen <= LINE_KEEP
    }

    constructor (token: seq<byte>, saves: seq<bool>)
      ensures Valid() && fresh(line) && fresh(ctx) && ctx.saves == saves
      ensures State() == Linked(token)
    {
      line := new byte[LINE_SIZE](_ => 0);
      linelen := 0;
      ctx := new CmdCtx(token, saves);
    }

    function State(): Asm
      requires Valid()
      reads this, line, ctx
    {
      Asm(line[..linelen], ctx.State())
    }

    /** The copy loop; raw holds no line feed. */
    method Store(raw: seq<byte>)
      requires Valid()
      modifies `linelen, line
      ensures Valid() && line[..linelen] == Grown(old(line[..linelen]), raw)
    {
      for j := 0 to |raw|
        invariant Valid() && line[..linelen] == Grown(old(line[..linelen]), raw[..j])
      {
        GrownMore(old(line[..linelen]), raw[..j], raw[j]);
        assert raw[..j + 1] == raw[..j] + [raw[j]];
        if raw[j] == CR {
          continue;
        }
        if linelen < line.Length - 1 {
          line[linelen] := raw[j];
          linelen := linelen + 1;
          assert line[..linelen] == line[..linelen - 1] + [raw[j]];
        }
      }
      assert raw[..|raw|] == raw;
    }

    /** What a line feed does. */
    method EndLine()
      requires Valid()
      modifies `linelen, line, ctx
      ensures Valid() && State() == Fed(old(State()), LF, ctx.saves)
    {
      hide Dispatched;
      line[linelen] := NUL;
      if linelen != 0 {
        ctx.DispatchLine(line, linelen);
      }
      linelen := 0;
    }

    /** One received block. */
    method OnReceived(buf: seq<byte>)
      requires Valid()
      modifies `linelen, line, ctx
      ensures Valid() && State() == FedAll(old(State()), buf, ctx.saves)
    {
      hide Fed, Grown, IndexOf;
      var p := 0;
      while p < |buf|
        invariant Valid() && p <= |buf|
        invariant FedAll(State(), buf[p..], ctx.saves) == old(FedAll(State(), buf, ctx.saves))
      {
        var nl := MemChr(buf, p, LF);
        ChunkStep(State(), buf, p, nl, ctx.saves);
        Store(buf[p..nl]);
        if nl < |buf| {
          EndLine();
          p := nl + 1;
        } else {
          p := nl;
        }
      }
    }

    /** client_task, from the first recv to the last: blocks are what recv brings, at most 256 bytes each. */
    method Serve(blocks: seq<seq<byte>>)
      requires Valid()
      modifies `linelen, line, ctx
      ensures Valid()
      ensures var a := FedAll(old(State()), Flatten(blocks), ctx.saves);
              ctx.State() == LineDone(a.link, a.line, ctx.saves)
    {
      hide Dispatched, Fed;
      for i := 0 to |blocks|
        invariant Valid()
        invariant FedAll(State(), Flatten(blocks[i..]), ctx.saves) == old(FedAll(State(), Flatten(blocks), ctx.saves))
      {
        assert blocks[i..][0] == blocks[i] && blocks[i..][1..] == blocks[i + 1..];
        FedJoins(State(), blocks[i], Flatten(blocks[i + 1..]), ctx.saves);
        OnReceived(blocks[i]);
      }
      assert Flatten(blocks[|blocks|..]) == [];
      if linelen != 0 {
        line[linelen] := NUL;
        ctx.DispatchLine(line, linelen);
      }
    }
  }

  // ---- the two transports agree ----

  /** A connection served over BLE, write by write, and over TCP, block by block and then closed. */
  function OverBle(a: Asm, writes: seq<seq<byte>>, saves: seq<bool>): Asm
    decreases |writes|
  {
    if writes == [] then a else OverBle(FedAll(a, writes[0], saves), writes[1..], saves)
  }

  function OverTcp(l: Link, blocks: seq<seq<byte>>, saves: seq<bool>): Link {
    var a := FedAll(Asm([], l), Flatten(blocks), saves);
    LineDone(a.link, a.line, saves)
  }

  lemma {:induction false} WritesDoNotMatter(a: Asm, writes: seq<seq<byte>>, saves: seq<bool>)
    ensures OverBle(a, writes, saves) == FedAll(a, Flatten(writes), saves)
    decreases |writes|
  {
    hide Fed;
    if writes != [] {
      FedJoins(a, writes[0], Flatten(writes[1..]), saves);
      WritesDoNotMatter(FedAll(a, writes[0], saves), writes[1..], saves);
    }
  }

  /**
   * For every stream and every two ways to cut it: BLE runs the stream's lines,
   * TCP runs the same lines and then the unterminated rest.
   */
  lemma TransportsAgree(l: Link, writes: seq<seq<byte>>, blocks: seq<seq<byte>>, saves: seq<bool>)
    requires Flatten(writes) == Flatten(blocks)
    ensures var s := Flatten(writes);
            var ble := OverBle(Asm([], l), writes, saves);
            && ble == Asm(Kept(Unterminated(s)), AllDone(l, Terminated(s), saves))
            && OverTcp(l, blocks, saves) == LineDone(ble.link, ble.line, saves)
  {
    hide Dispatched, Kept;
    WritesDoNotMatter(Asm([], l), writes, saves);
    AssemblyIsSplitting(l, Flatten(writes), saves);
  }

  /** So the transports do the same exactly when nothing but blanks follows the last line feed. */
  lemma SameWithoutTail(l: Link, writes: seq<seq<byte>>, blocks: seq<seq<byte>>, saves: seq<bool>)
    requires Flatten(writes) == Flatten(blocks)
    ensures OverBle(Asm([], l), writes, saves).link == OverTcp(l, blocks, saves) <==>
            AllBlank(Kept(Unterminated(Flatten(writes))))
  {
    hide Kept, Parsed, FedAll;
    TransportsAgree(l, writes, blocks, saves);
    var ble := OverBle(Asm([], l), writes, saves);
    hide OverBle, OverTcp, AllDone;
    DispatchDoesSomething(ble.link, ble.line, saves);
    assert ble.line == [] ==> AllBlank(ble.line);
  }

  lemma DispatchDoesSomething(l: Link, line: seq<byte>, saves: seq<bool>)
    ensures Dispatched(l, line, saves) == l <==> AllBlank(line)
  {
    hide RTrim, LTrim, Find, Word;
    NoWordIffBlank(line);
  }

  lemma NoWordIffBlank(line: seq<byte>)
    ensures Parsed(line).0 == [] <==> AllBlank(line)
  {
    hide RTrim, LTrim, Word;
    var t := LTrim(RTrim(line));
    LTrimStarts(RTrim(line));
    NoWord(t);
    TrimmedAway(line);
  }

  lemma TrimmedAway(line: seq<byte>)
    ensures LTrim(RTrim(line)) == [] <==> AllBlank(line)
  {
    hide LTrim, RTrim;
    LTrimLeaves(RTrim(line));
    RTrimLeaves(line);
  }

  lemma {:induction false} LTrimLeaves(s: seq<byte>)
    ensures LTrim(s) == [] <==> AllBlank(s)
  {
    if s != [] && Blank(s[0]) {
      LTrimLeaves(s[1..]);
      assert s == [s[0]] + s[1..];
    }
  }

  lemma {:induction false} RTrimLeaves(s: seq<byte>)
    ensures AllBlank(RTrim(s)) <==> AllBlank(s)
  {
    if s != [] && Blank(s[|s| - 1]) {
      RTrimLeaves(s[..|s| - 1]);
      assert s == s[..|s| - 1] + [s[|s| - 1]];
    }
  }

  /**
   * Over every stream, on either transport: from act n on, nothing but the six
   * open commands runs before a granted AUTH.
   */
  lemma {:induction false} StreamGuarded(a: Asm, n: nat, s: seq<byte>, saves: seq<bool>)
    requires Guarded(a.link, n)
    ensures Guarded(FedAll(a, s, saves).link, n)
    ensures var b := FedAll(a, s, saves); Guarded(LineDone(b.link, b.line, saves), n)
    decreases |s|
  {
    hide Guarded, Dispatched;
    DispatchGuarded(a.link, n, a.line, saves);
    if s != [] {
      StreamGuarded(Fed(a, s[0], saves), n, s[1..], saves);
    }
  }

  /** So a link that came up, or lost its client, starts from nothing: AUTH must be granted anew. */
  lemma FreshLinkMustAuthenticate(l: Link, s: seq<byte>, saves: seq<bool>)
    ensures Guarded(FedAll(Linked(l.token), s, saves).link, 0)
    ensures Guarded(FedAll(Dropped(l), s, saves).link, |l.acts|)
  {
    hide FedAll;
    StreamGuarded(Linked(l.token), 0, s, saves);
    StreamGuarded(Dropped(l), |l.acts|, s, saves);
  }
}
