/** Wi-Fi credentials: written to one characteristic, turned into a command line, parsed again. */
module WifiCredentials {
  import opened Bytes
  import opened Text
  import opened CommandDispatch
  import opened LineAssembler

  const CRED_BUF := 200
  const CMDLINE := 120
  const SSID_MAX := 32
  const PWD_MAX := 64

  // "setwifi "
  const PREFIX: seq<byte> := [115, 101, 116, 119, 105, 102, 105, 32]

  datatype Cred = Cred(ssid: seq<byte>, pwd: seq<byte>)
  datatype Found = Nothing | Creds(c: Cred)

  function Take(s: seq<byte>, n: nat): seq<byte> {
    s[..Min(|s|, n)]
  }

  // ---- sscanf's "%<width>s" ----

  function Run(s: seq<byte>, width: nat): (w: seq<byte>)
    ensures |w| <= width && |w| <= |s|
    decreases |s|
  {
    if width == 0 || s == [] || IsSpace(s[0]) || s[0] == NUL then [] else [s[0]] + Run(s[1..], width - 1)
  }

  /** The word, empty if there is none, and what follows it. */
  function Scanned(s: seq<byte>, width: nat): (seq<byte>, seq<byte>) {
    var t := SkipSpace(s);
    var w := Run(t, width);
    (w, t[|w|..])
  }

  // ---- specification ----

  /** cmd_setwifi: the pair given to wifi_set_credentials, if any. */
  function SetWifi(args: seq<byte>): Found {
    var (ssid, rest) := Scanned(args, SSID_MAX);
    var (pwd, _) := Scanned(rest, PWD_MAX);
    if args != [] && ssid != [] && pwd != [] then Creds(Cred(ssid, pwd)) else Nothing
  }

  /** "<ssid>\n<pwd>" */
  function TwoLines(b: seq<byte>, nl: nat): Found
    requires nl < |b|
  {
    var ssid := Take(RTrim(b[..nl]), SSID_MAX);
    if ssid == [] then Nothing else Creds(Cred(ssid, Take(RTrim(b[nl + 1..]), PWD_MAX)))
  }

  /** "SETWIFI <ssid> <pwd>" */
  function OneLine(b: seq<byte>): Found {
    var (cmd, rest1) := Scanned(b, 15);
    var (ssid, rest2) := Scanned(rest1, SSID_MAX);
    var (pwd, _) := Scanned(rest2, PWD_MAX);
    if cmd != [] && ssid != [] && pwd != [] && SameName(cmd, CMDS[SETWIFI].name) then Creds(Cred(ssid, pwd))
    else Nothing
  }

  /** What is read out of a write to the characteristic. */
  function Fields(data: seq<byte>): Found {
    var b := CString(Take(data, CRED_BUF - 1));
    var nl := IndexOf(b, LF);
    if nl < |b| then TwoLines(b, nl) else OneLine(b)
  }

  /** The command line built from it. */
  function CommandLine(c: Cred): seq<byte> {
    Take(PREFIX + c.ssid + [SPACE] + c.pwd, CMDLINE - 1)
  }

  function Written(a: Asm, data: seq<byte>, saves: seq<bool>): (Asm, bool) {
    if data == [] then (a, true)
    else
      match Fields(data)
      case Nothing => (a, false)
      case Creds(c) =>
        var line := CommandLine(c);
        (FedAll(a, if |line| < CMDLINE - 1 then line + [LF] else line, saves), true)
  }

  // ---- the code ----

  /** strlen; end is where some terminator stands. */
  method StrLen(s: array<byte>, from: nat, ghost end: nat) returns (n: nat)
    requires from <= end < s.Length && s[end] == NUL
    ensures from + n <= end && s[from + n] == NUL && NulFree(s[from..from + n])
    ensures CString(s[from..]) == s[from..from + n]
  {
    n := 0;
    while s[from + n] != NUL
      invariant from + n <= end && forall i :: from <= i < from + n ==> s[i] != NUL
      decreases end - from - n
    {
      n := n + 1;
    }
    CStringAt(s[from..], n);
    assert s[from..][..n] == s[from..from + n];
  }

  /** Cuts trailing blanks off the string at from, in place. */
  method RstripCrlf(s: array<byte>, from: nat, ghost end: nat) returns (n: nat)
    requires from <= end < s.Length && s[end] == NUL
    modifies s
    ensures from + n <= end && s[from..from + n] == RTrim(old(CString(s[from..])))
    ensures forall i :: 0 <= i < from || end <= i < s.Length ==> s[i] == old(s[i])
  {
    var len := StrLen(s, from, end);
    n := len;
    while n > 0 && (s[from + n - 1] == CR || s[from + n - 1] == LF || s[from + n - 1] <= 32)
      invariant n <= len && s[from..from + n] == old(s[from..from + n])
      invariant RTrim(old(s[from..from + n])) == RTrim(old(s[from..from + len]))
      invariant forall i :: 0 <= i < from || end <= i < s.Length ==> s[i] == old(s[i])
    {
      assert old(s[from..from + n])[..n - 1] == old(s[from..from + n - 1]);
      n := n - 1;
      s[from + n] := NUL;
    }
  }

  /** strchr for a byte other than NUL; len if there is none. */
  method StrChr(s: array<byte>, len: nat, c: byte) returns (k: nat)
    requires len < s.Length
    ensures k == IndexOf(s[..len], c)
  {
    k := 0;
    assert s[0..len] == s[..len];
    while k < len && s[k] != c
      invariant k <= len && IndexOf(s[..len], c) == k + IndexOf(s[k..len], c)
    {
      assert s[k..len][1..] == s[k + 1..len];
      k := k + 1;
    }
  }

  method OnWifiCredWrite(cli: BleCmd, data: seq<byte>) returns (ok: bool)
    requires cli.Valid()
    modifies cli`len, cli.line, cli.ctx
    ensures cli.Valid()
    ensures (cli.State(), ok) == Written(old(cli.State()), data, cli.ctx.saves)
  {
    if data == [] {
      return true;
    }
    hide RTrim, IndexOf, OneLine, FedAll, CString;
    var buf := new byte[CRED_BUF](_ => 0);
    var len := Min(|data|, CRED_BUF - 1);
    for i := 0 to len
      modifies buf
      invariant buf[..i] == data[..i] && forall j :: i <= j < CRED_BUF ==> buf[j] == NUL
    {
      buf[i] := data[i];
      assert buf[..i + 1] == buf[..i] + [data[i]];
    }
    var found := ReadFields(buf, data, len);
    if found.Nothing? {
      return false;
    }
    var text := PREFIX + found.c.ssid + [SPACE] + found.c.pwd;
    var cmdline := Take(text, CMDLINE - 1);
    if |cmdline| < CMDLINE - 1 {
      cmdline := cmdline + [LF];
    }
    cli.OnRx(cmdline);
    ok := true;
  }

  method ReadFields(buf: array<byte>, ghost data: seq<byte>, ghost len: nat) returns (found: Found)
    requires buf.Length == CRED_BUF && len == Min(|data|, CRED_BUF - 1)
    requires buf[..len] == data[..len] && forall j :: len <= j < CRED_BUF ==> buf[j] == NUL
    modifies buf
    ensures found == Fields(data)
  {
    hide RTrim, IndexOf, OneLine, TwoLines, CString;
    var m := StrLen(buf, 0, len);
    assert buf[0..] == data[..len] + buf[len..];
    CStringStops(data[..len], buf[len..]);
    assert buf[0..0 + m] == buf[..m];
    var nl := StrChr(buf, m, LF);
    if nl < m {
      found := ReadTwoLines(buf, m, nl);
    } else {
      found := OneLine(buf[..m]);
    }
  }

  /** rstrip_crlf and strncpy on the n-byte string at from. */
  method TrimField(buf: array<byte>, from: nat, n: nat, width: nat) returns (field: seq<byte>)
    requires from + n < buf.Length && buf[from + n] == NUL && NulFree(buf[from..from + n])
    modifies buf
    ensures field == Take(RTrim(old(buf[from..from + n])), width)
    ensures forall i :: 0 <= i < from || from + n <= i < buf.Length ==> buf[i] == old(buf[i])
  {
    hide RTrim, CString;
    assert buf[from..][..n] == buf[from..from + n];
    CStringAt(buf[from..], n);
    var kept := RstripCrlf(buf, from, from + n);
    field := Take(buf[from..from + kept], width);
  }

  /** The string buf[..m], cut at its first line feed. */
  method ReadTwoLines(buf: array<byte>, m: nat, nl: nat) returns (found: Found)
    requires nl < m < buf.Length && buf[m] == NUL && NulFree(buf[..m])
    modifies buf
    ensures found == TwoLines(old(buf[..m]), nl)
  {
    hide RTrim, Take;
    ghost var b := buf[..m];
    var rest := m - nl - 1;
    buf[nl] := NUL;
    assert buf[0..0 + nl] == b[..nl] && buf[nl + 1..nl + 1 + rest] == b[nl + 1..];
    var ssid := TrimField(buf, 0, nl, SSID_MAX);
    assert buf[nl + 1..nl + 1 + rest] == b[nl + 1..];
    var pwd := TrimField(buf, nl + 1, rest, PWD_MAX);
    found := if ssid == [] then Nothing else Creds(Cred(ssid, pwd));
  }

  class Wifi {
    var given: seq<Cred>

    constructor ()
      ensures given == []
    {
      given := [];
    }

    /** The reply is WIFI_UPDATED or BADFMT. */
    method CmdSetwifi(args: seq<byte>) returns (updated: bool)
      modifies this
      ensures updated == SetWifi(args).Creds?
      ensures given == old(given) + if updated then [SetWifi(args).c] else []
    {
      if args == [] {
        return false;
      }
      var (ssid, rest) := Scanned(args, SSID_MAX);
      var (pwd, _) := Scanned(rest, PWD_MAX);
      updated := ssid != [] && pwd != [];
      if updated {
        given := given + [Cred(ssid, pwd)];
      }
    }
  }

  // ---- what survives the way ----

  /** Neither white space nor NUL. */
  predicate Solid(s: seq<byte>) {
    forall i :: 0 <= i < |s| ==> !IsSpace(s[i]) && s[i] != NUL
  }

  /** The pairs given to wifi_set_credentials so far. */
  function GivenBy(acts: seq<Act>): seq<Cred> {
    if acts == [] then [] else GivenBy(acts[..|acts| - 1]) + GivenIn(acts[|acts| - 1])
  }

  function GivenIn(a: Act): seq<Cred> {
    if a.Ran? && a.cmd == SETWIFI && SetWifi(a.args).Creds? then [SetWifi(a.args).c] else []
  }

  lemma GivenOneMore(acts: seq<Act>, a: Act)
    ensures GivenBy(acts + [a]) == GivenBy(acts) + GivenIn(a)
  {
    assert (acts + [a])[..|acts|] == acts;
  }

  lemma {:induction false} RunIsSolid(s: seq<byte>, width: nat)
    ensures Solid(Run(s, width)) && Run(s, width) == s[..|Run(s, width)|]
    decreases |s|
  {
    if !(width == 0 || s == [] || IsSpace(s[0]) || s[0] == NUL) {
      RunIsSolid(s[1..], width - 1);
      assert s == [s[0]] + s[1..];
    }
  }

  /** Whatever is given, sscanf bounds it: solid words of at most 32 and 64 bytes. */
  predicate WordPair(c: Cred) {
    0 < |c.ssid| <= SSID_MAX && 0 < |c.pwd| <= PWD_MAX && Solid(c.ssid) && Solid(c.pwd)
  }

  lemma SetWifiBounds(args: seq<byte>)
    ensures SetWifi(args).Creds? ==> WordPair(SetWifi(args).c)
  {
    hide Run;
    var (ssid, rest) := Scanned(args, SSID_MAX);
    RunIsSolid(SkipSpace(args), SSID_MAX);
    RunIsSolid(SkipSpace(rest), PWD_MAX);
  }

  lemma {:induction false} GivenBounds(acts: seq<Act>)
    ensures forall i :: 0 <= i < |GivenBy(acts)| ==> WordPair(GivenBy(acts)[i])
    decreases |acts|
  {
    hide SetWifi, WordPair;
    if acts != [] {
      GivenBounds(acts[..|acts| - 1]);
      var a := acts[|acts| - 1];
      if a.Ran? {
        SetWifiBounds(a.args);
      }
    }
  }

  // ---- scanning and trimming solid words ----

  lemma {:induction false} RunOf(w: seq<byte>, rest: seq<byte>, width: nat)
    requires Solid(w) && |w| <= width && (rest == [] || IsSpace(rest[0]))
    ensures Run(w + rest, width) == w
    decreases |w|
  {
    if w == [] {
      assert w + rest == rest;
    } else {
      assert (w + rest)[1..] == w[1..] + rest;
      RunOf(w[1..], rest, width - 1);
    }
  }

  lemma ScannedOf(w: seq<byte>, rest: seq<byte>, width: nat)
    requires Solid(w) && 0 < |w| <= width && (rest == [] || IsSpace(rest[0]))
    ensures Scanned(w + rest, width) == (w, rest)
  {
    RunOf(w, rest, width);
    assert SkipSpace(w + rest) == w + rest;
  }

  lemma ScannedAfterSpace(w: seq<byte>, rest: seq<byte>, width: nat)
    requires Solid(w) && 0 < |w| <= width && (rest == [] || IsSpace(rest[0]))
    ensures Scanned([SPACE] + (w + rest), width) == (w, rest)
  {
    ScannedOf(w, rest, width);
    assert ([SPACE] + (w + rest))[1..] == w + rest;
  }

  /** cmd_setwifi on two words, and on one. */
  lemma SetWifiOf(ssid: seq<byte>, pwd: seq<byte>)
    requires WordPair(Cred(ssid, pwd))
    ensures SetWifi(ssid + [SPACE] + pwd) == Creds(Cred(ssid, pwd))
    ensures SetWifi(ssid) == Nothing
  {
    hide Scanned;
    var none: seq<byte> := [];
    assert ssid + [SPACE] + pwd == ssid + ([SPACE] + (pwd + none));
    ScannedOf(ssid, [SPACE] + (pwd + none), SSID_MAX);
    ScannedAfterSpace(pwd, none, PWD_MAX);
    assert ssid + none == ssid;
    ScannedOf(ssid, none, SSID_MAX);
    NothingScanned(PWD_MAX);
  }

  lemma NothingScanned(width: nat)
    ensures Scanned([], width).0 == []
  {
  }

  lemma {:induction false} RTrimPrefix(s: seq<byte>)
    ensures |RTrim(s)| <= |s| && RTrim(s) == s[..|RTrim(s)|]
    ensures RTrim(s) == s <==> s == [] || !Blank(s[|s| - 1])
  {
    if s != [] && Blank(s[|s| - 1]) {
      RTrimPrefix(s[..|s| - 1]);
    }
  }

  lemma {:induction false} LTrimSuffix(s: seq<byte>)
    ensures |LTrim(s)| <= |s| && LTrim(s) == s[|s| - |LTrim(s)|..] && AllBlank(s[..|s| - |LTrim(s)|])
    ensures LTrim(s) == s <==> s == [] || !Blank(s[0])
    ensures s != [] && !Blank(s[|s| - 1]) ==> LTrim(s) != []
  {
    if s != [] && Blank(s[0]) {
      var t := s[1..];
      LTrimSuffix(t);
      var n := |t| - |LTrim(t)|;
      assert LTrim(s) == LTrim(t) && s[..n + 1] == [s[0]] + t[..n] && s[n + 1..] == t[n..];
    }
  }

  lemma {:induction false} IndexFirst(s: seq<byte>, c: byte, rest: seq<byte>)
    requires c !in s
    ensures IndexOf(s + [c] + rest, c) == |s|
    decreases |s|
  {
    var t := s + [c] + rest;
    if s == [] {
      assert t[0] == c;
    } else {
      assert t[0] == s[0] && s[0] in s;
      assert t[1..] == s[1..] + [c] + rest;
      IndexFirst(s[1..], c, rest);
    }
  }

  // ---- the command line for a pair of solid words ----

  /** What the trimming on the way leaves of a pair. */
  function Trimmed(c: Cred): Cred {
    Cred(LTrim(RTrim(c.ssid)), RTrim(c.pwd))
  }

  /** The arguments cmd_setwifi gets for a line with ssid and pwd, both already cut on the right. */
  function ArgsFor(ssid: seq<byte>, pwd: seq<byte>): seq<byte> {
    if pwd == [] then LTrim(ssid) else LTrim(ssid) + [SPACE] + pwd
  }

  lemma LineArgs(ssid: seq<byte>, pwd: seq<byte>)
    requires Solid(ssid) && Solid(pwd) && ssid != [] && !Blank(ssid[|ssid| - 1])
    requires pwd != [] ==> !Blank(pwd[|pwd| - 1])
    ensures Parsed(PREFIX + ssid + [SPACE] + pwd) == (CMDS[SETWIFI].name, ArgsFor(ssid, pwd))
  {
    var name := CMDS[SETWIFI].name;
    LTrimSuffix(ssid);
    LTrimStarts(ssid);
    var cut := |ssid| - |LTrim(ssid)|;
    var lead, x := ssid[..cut], LTrim(ssid);
    var none: seq<byte> := [];
    assert ssid == lead + x && PREFIX == name + [SPACE];
    assert !Blank(x[|x| - 1]) && NoBlank(name) && AllBlank([SPACE] + lead);
    hide LTrim, Parsed;
    Regrouped(name, lead, x, pwd);
    if pwd == [] {
      SpacingDoesNotMatter(none, name, [SPACE] + lead, x, [SPACE]);
    } else {
      SpacingDoesNotMatter(none, name, [SPACE] + lead, x + [SPACE] + pwd, none);
    }
  }

  lemma Regrouped(name: seq<byte>, lead: seq<byte>, x: seq<byte>, pwd: seq<byte>)
    ensures var none: seq<byte> := []; var line := name + [SPACE] + (lead + x) + [SPACE] + pwd;
            && line == none + name + ([SPACE] + lead) + (x + [SPACE] + pwd) + none
            && (pwd == [] ==> line == none + name + ([SPACE] + lead) + x + [SPACE])
  {
  }

  /** The whole way of a solid pair, from the command line on. */
  lemma LineRuns(l: Link, ssid: seq<byte>, pwd: seq<byte>, saves: seq<bool>)
    requires Solid(ssid) && Solid(pwd) && 0 < |ssid| <= SSID_MAX && |pwd| <= PWD_MAX
    requires !Blank(ssid[|ssid| - 1]) && (pwd != [] ==> !Blank(pwd[|pwd| - 1]))
    ensures CommandLine(Cred(ssid, pwd)) == PREFIX + ssid + [SPACE] + pwd
    ensures var after := FedAll(Asm([], l), CommandLine(Cred(ssid, pwd)) + [LF], saves);
            && after == Asm([], Dispatched(l, PREFIX + ssid + [SPACE] + pwd, saves))
            && GivenBy(after.link.acts) ==
               GivenBy(l.acts) + if l.authed && pwd != [] then [Cred(LTrim(ssid), pwd)] else []
  {
    var line := PREFIX + ssid + [SPACE] + pwd;
    assert |line| <= 105 && CommandLine(Cred(ssid, pwd)) == line;
    LineAssembles(l, ssid, pwd, saves);
    LineGives(l, ssid, pwd, saves);
  }

  lemma LineAssembles(l: Link, ssid: seq<byte>, pwd: seq<byte>, saves: seq<bool>)
    requires Solid(ssid) && Solid(pwd) && |ssid| <= SSID_MAX && |pwd| <= PWD_MAX
    ensures var line := PREFIX + ssid + [SPACE] + pwd;
            FedAll(Asm([], l), line + [LF], saves) == Asm([], Dispatched(l, line, saves))
  {
    var line := PREFIX + ssid + [SPACE] + pwd;
    assert LF !in line && CR !in line && line != [];
    hide Dispatched, Grown, WithoutCr;
    FedJoins(Asm([], l), line, [LF], saves);
    FedWithinLine(Asm([], l), line, saves);
    KeptIsGrown(line);
    NoCrToDrop(line);
    CutShort(line);
    var b := Asm(line, l);
    assert FedAll(b, [LF], saves) == FedAll(Fed(b, LF, saves), [LF][1..], saves);
  }

  /** A line that names setwifi runs it, or is denied. */
  lemma SetWifiDispatched(l: Link, line: seq<byte>, args: seq<byte>, saves: seq<bool>)
    requires Parsed(line) == (CMDS[SETWIFI].name, args) && NulFree(args)
    ensures Dispatched(l, line, saves).acts ==
            l.acts + [if l.authed then Ran(SETWIFI, args) else Denied(SETWIFI)]
  {
    assert CMDS[SETWIFI].needsAuth && |CMDS| == 13 && CMDS[SETWIFI].name != [];
    hide Parsed, CString, Find, Token, CMDS;
    FindIsExact(CMDS[SETWIFI].name, SETWIFI);
    CStringOfNulFree(args);
  }

  lemma LineDispatches(l: Link, ssid: seq<byte>, pwd: seq<byte>, saves: seq<bool>)
    requires Solid(ssid) && Solid(pwd) && ssid != [] && !Blank(ssid[|ssid| - 1])
    requires pwd != [] ==> !Blank(pwd[|pwd| - 1])
    ensures Dispatched(l, PREFIX + ssid + [SPACE] + pwd, saves).acts ==
            l.acts + [if l.authed then Ran(SETWIFI, ArgsFor(ssid, pwd)) else Denied(SETWIFI)]
  {
    hide Dispatched, Parsed, ArgsFor, CMDS;
    LineArgs(ssid, pwd);
    ArgsAreSolid(ssid, pwd);
    SetWifiDispatched(l, PREFIX + ssid + [SPACE] + pwd, ArgsFor(ssid, pwd), saves);
  }

  lemma {:induction false} LTrimSolid(s: seq<byte>)
    requires Solid(s)
    ensures Solid(LTrim(s)) && |LTrim(s)| <= |s|
    ensures s != [] && !Blank(s[|s| - 1]) ==> LTrim(s) != []
    decreases |s|
  {
    if s != [] && Blank(s[0]) {
      LTrimSolid(s[1..]);
    }
  }

  lemma ArgsAreSolid(ssid: seq<byte>, pwd: seq<byte>)
    requires Solid(ssid) && Solid(pwd)
    ensures Solid(LTrim(ssid)) && |LTrim(ssid)| <= |ssid| && NulFree(ArgsFor(ssid, pwd))
  {
    LTrimSolid(ssid);
    hide LTrim;
  }

  lemma ArgsGive(ssid: seq<byte>, pwd: seq<byte>)
    requires Solid(ssid) && Solid(pwd) && 0 < |ssid| <= SSID_MAX && |pwd| <= PWD_MAX && !Blank(ssid[|ssid| - 1])
    ensures SetWifi(ArgsFor(ssid, pwd)) == if pwd == [] then Nothing else Creds(Cred(LTrim(ssid), pwd))
  {
    var other: seq<byte> := [33];
    assert Solid(other);
    LTrimSolid(ssid);
    hide SetWifi, LTrim, Solid, Blank;
    SetWifiOf(LTrim(ssid), if pwd == [] then other else pwd);
  }

  lemma LineGives(l: Link, ssid: seq<byte>, pwd: seq<byte>, saves: seq<bool>)
    requires Solid(ssid) && Solid(pwd) && 0 < |ssid| <= SSID_MAX && |pwd| <= PWD_MAX
    requires !Blank(ssid[|ssid| - 1]) && (pwd != [] ==> !Blank(pwd[|pwd| - 1]))
    ensures GivenBy(Dispatched(l, PREFIX + ssid + [SPACE] + pwd, saves).acts) ==
            GivenBy(l.acts) + if l.authed && pwd != [] then [Cred(LTrim(ssid), pwd)] else []
  {
    hide Dispatched, SetWifi, GivenBy, LTrim, ArgsFor, Solid;
    LineDispatches(l, ssid, pwd, saves);
    ArgsGive(ssid, pwd);
    GivenOneMore(l.acts, if l.authed then Ran(SETWIFI, ArgsFor(ssid, pwd)) else Denied(SETWIFI));
  }

  // ---- the main result ----

  /** What the characteristic can carry: solid words that begin and end in a byte above 0x20. */
  predicate Carried(c: Cred) {
    && WordPair(c)
    && !Blank(c.ssid[0]) && !Blank(c.ssid[|c.ssid| - 1]) && !Blank(c.pwd[|c.pwd| - 1])
  }

  lemma TakeAll(s: seq<byte>, n: nat)
    requires |s| <= n
    ensures Take(s, n) == s
  {
  }

  lemma DataShape(ssid: seq<byte>, pwd: seq<byte>)
    requires WordPair(Cred(ssid, pwd))
    ensures var data := ssid + [LF] + pwd;
            && |data| <= 97 && NulFree(data) && LF !in ssid
            && data[..|ssid|] == ssid && data[|ssid| + 1..] == pwd
  {
  }

  lemma FieldsOf(ssid: seq<byte>, pwd: seq<byte>)
    requires WordPair(Cred(ssid, pwd))
    ensures Fields(ssid + [LF] + pwd) ==
            if RTrim(ssid) == [] then Nothing else Creds(Cred(RTrim(ssid), RTrim(pwd)))
  {
    var data := ssid + [LF] + pwd;
    DataShape(ssid, pwd);
    RTrimPrefix(ssid);
    RTrimPrefix(pwd);
    TakeAll(data, CRED_BUF - 1);
    TakeAll(RTrim(ssid), SSID_MAX);
    TakeAll(RTrim(pwd), PWD_MAX);
    hide RTrim, CString, IndexOf, Solid, NulFree, OneLine, Take;
    CStringOfNulFree(data);
    IndexFirst(ssid, LF, pwd);
  }

  /**
   * For every pair of byte strings: writing "<ssid>\n<pwd>" on a link with an
   * empty line buffer gives exactly that pair to wifi_set_credentials if and
   * only if the link is authenticated and the characteristic can carry the pair.
   */
  lemma CredentialRoundTrip(l: Link, c: Cred, saves: seq<bool>)
    ensures GivenBy(Written(Asm([], l), c.ssid + [LF] + c.pwd, saves).0.link.acts) == GivenBy(l.acts) + [c] <==>
            l.authed && Carried(c)
  {
    var after := Written(Asm([], l), c.ssid + [LF] + c.pwd, saves).0;
    hide Written, GivenBy, RTrim, LTrim, FedAll;
    GivenBounds(after.link.acts);
    var g := GivenBy(l.acts);
    if GivenBy(after.link.acts) == g + [c] {
      assert (g + [c])[|g|] == c;
    }
    if WordPair(c) {
      SolidPairWritten(l, c, saves);
      Untrimmed(c);
      assert g + [] == g;
      if RTrim(c.ssid) != [] && l.authed && RTrim(c.pwd) != [] {
        assert (g + [Trimmed(c)])[|g|] == Trimmed(c);
      }
    }
  }

  lemma SolidPairWritten(l: Link, c: Cred, saves: seq<bool>)
    requires WordPair(c)
    ensures GivenBy(Written(Asm([], l), c.ssid + [LF] + c.pwd, saves).0.link.acts) ==
            GivenBy(l.acts) + if RTrim(c.ssid) != [] && l.authed && RTrim(c.pwd) != [] then [Trimmed(c)] else []
  {
    FieldsOf(c.ssid, c.pwd);
    var ssid, pwd := RTrim(c.ssid), RTrim(c.pwd);
    RTrimEnds(c.ssid);
    RTrimEnds(c.pwd);
    RTrimSolid(c.ssid);
    RTrimSolid(c.pwd);
    hide RTrim, LTrim, FedAll, GivenBy, Fields, Solid, Blank;
    if ssid != [] {
      LineRuns(l, ssid, pwd, saves);
    }
  }

  lemma RTrimSolid(s: seq<byte>)
    requires Solid(s)
    ensures Solid(RTrim(s)) && |RTrim(s)| <= |s|
  {
    RTrimPrefix(s);
  }

  lemma Untrimmed(c: Cred)
    requires WordPair(c)
    ensures RTrim(c.ssid) != [] && RTrim(c.pwd) != [] && Trimmed(c) == c <==> Carried(c)
  {
    RTrimPrefix(c.ssid);
    RTrimPrefix(c.pwd);
    LTrimSuffix(RTrim(c.ssid));
    hide RTrim, LTrim;
  }

  /** The pair the documentation promises: any bytes above 0x20. */
  lemma PrintableIsCarried(c: Cred)
    requires 0 < |c.ssid| <= 32 && (forall i :: 0 <= i < |c.ssid| ==> c.ssid[i] > 32)
    requires 0 < |c.pwd| <= 64 && (forall i :: 0 <= i < |c.pwd| ==> c.pwd[i] > 32)
    ensures Carried(c)
  {
    WordsInNumbers(c);
  }

  /** What a pair of words is, in numbers: no NUL, no white space, 32 and 64 bytes at most. */
  lemma WordsInNumbers(c: Cred)
    ensures WordPair(c) <==>
            && 0 < |c.ssid| <= 32 && (forall i :: 0 <= i < |c.ssid| ==> c.ssid[i] !in {0, 9, 10, 11, 12, 13, 32})
            && 0 < |c.pwd| <= 64 && (forall i :: 0 <= i < |c.pwd| ==> c.pwd[i] !in {0, 9, 10, 11, 12, 13, 32})
  {
  }

  // ---- what is answered ----

  /** The two-line form is refused exactly if its first line holds nothing above 0x20; then nothing has changed. */
  lemma EmptyNameIsRefused(a: Asm, ssid: seq<byte>, rest: seq<byte>, saves: seq<bool>)
    requires LF !in ssid && NulFree(ssid) && |ssid| <= 198
    ensures var (a', ok) := Written(a, ssid + [LF] + rest, saves);
            && (ok <==> exists i :: 0 <= i < |ssid| && ssid[i] > 32)
            && (!ok ==> a' == a)
  {
    var b := CString(Take(ssid + [LF] + rest, CRED_BUF - 1));
    var tail := Take(rest, CRED_BUF - 2 - |ssid|);
    assert Take(ssid + [LF] + rest, CRED_BUF - 1) == ssid + ([LF] + tail);
    assert ([LF] + tail)[1..] == tail;
    CStringJoins(ssid, [LF] + tail);
    assert b == ssid + [LF] + CString(tail);
    IndexFirst(ssid, LF, CString(tail));
    assert b[..|ssid|] == ssid;
    RTrimCut(ssid);
    RTrimEnds(ssid);
    hide CString, IndexOf, OneLine, FedAll, RTrim;
    if RTrim(ssid) != [] {
      assert ssid[|RTrim(ssid)| - 1] > 32;
    }
  }

  lemma {:induction false} CStringJoins(s: seq<byte>, rest: seq<byte>)
    requires NulFree(s)
    ensures CString(s + rest) == s + CString(rest)
    decreases |s|
  {
    if s == [] {
      assert s + rest == rest;
    } else {
      assert (s + rest)[1..] == s[1..] + rest;
      CStringJoins(s[1..], rest);
    }
  }

  /** Three words on one line are read exactly if the first one is "setwifi", in any case of letters. */
  lemma FirstWordDecides(a: Asm, cmd: seq<byte>, c: Cred, saves: seq<bool>)
    requires Solid(cmd) && 0 < |cmd| <= 15 && WordPair(c)
    ensures var data := cmd + [SPACE] + c.ssid + [SPACE] + c.pwd; var (a', ok) := Written(a, data, saves);
            && (ok <==> SameName(cmd, Ascii("setwifi")))
            && Fields(data) == (if ok then Creds(c) else Nothing)
            && (!ok ==> a' == a)
  {
    CommandTable();
    hide Fields, FedAll, Ascii, Solid, CMDS, SameName;
    OneLineFields(cmd, c);
  }

  /** A write without bytes is ignored. */
  lemma NothingWritten(a: Asm, saves: seq<bool>)
    ensures Written(a, [], saves) == (a, true)
  {
  }

  // ---- the one-line form ----

  lemma {:induction false} IndexNone(s: seq<byte>, c: byte)
    requires c !in s
    ensures IndexOf(s, c) == |s|
    decreases |s|
  {
    if s != [] {
      assert s[0] in s;
      IndexNone(s[1..], c);
    }
  }

  lemma OneLineShape(cmd: seq<byte>, c: Cred)
    requires Solid(cmd) && |cmd| <= 15 && WordPair(c)
    ensures var data := cmd + [SPACE] + c.ssid + [SPACE] + c.pwd;
            && |data| <= 113 && NulFree(data) && LF !in data
            && data == cmd + ([SPACE] + (c.ssid + ([SPACE] + (c.pwd + []))))
  {
  }

  lemma CommandWordIsSolid(cmd: seq<byte>)
    requires SameName(cmd, CMDS[SETWIFI].name)
    ensures Solid(cmd) && |cmd| == 7
  {
    forall i | 0 <= i < |cmd| ensures cmd[i] >= 65 {
      assert Fold(cmd[i]) == Fold(CMDS[SETWIFI].name[i]);
    }
  }

  lemma OneLineFields(cmd: seq<byte>, c: Cred)
    requires Solid(cmd) && 0 < |cmd| <= 15 && WordPair(c)
    ensures Fields(cmd + [SPACE] + c.ssid + [SPACE] + c.pwd) ==
            if SameName(cmd, CMDS[SETWIFI].name) then Creds(c) else Nothing
  {
    OneLineShape(cmd, c);
    var data := cmd + [SPACE] + c.ssid + [SPACE] + c.pwd;
    var tail1, tail2 := [SPACE] + (c.ssid + ([SPACE] + (c.pwd + []))), [SPACE] + (c.pwd + []);
    assert Take(data, CRED_BUF - 1) == data;
    hide CString, IndexOf, Solid, NulFree, Scanned, TwoLines, SameName, CMDS;
    CStringOfNulFree(data);
    IndexNone(data, LF);
    ScannedOf(cmd, tail1, 15);
    ScannedAfterSpace(c.ssid, tail2, SSID_MAX);
    ScannedAfterSpace(c.pwd, [], PWD_MAX);
  }

  /** On one line the SSID may end in a control character: the blank after it protects it. */
  predicate CarriedOnOneLine(c: Cred) {
    WordPair(c) && !Blank(c.ssid[0]) && !Blank(c.pwd[|c.pwd| - 1])
  }

  lemma GivenInIs(a: Act)
    ensures !a.Ran? || a.cmd != SETWIFI ==> GivenIn(a) == []
    ensures a.Ran? && a.cmd == SETWIFI ==> GivenIn(a) == if SetWifi(a.args).Creds? then [SetWifi(a.args).c] else []
  {
  }

  lemma AddedGive(acts: seq<Act>, added: seq<Act>)
    requires |added| <= 2 && (|added| == 2 ==> added[1] == Granted)
    ensures GivenBy(acts + added) == GivenBy(acts) + if added == [] then [] else GivenIn(added[0])
  {
    hide SetWifi, GivenBy, GivenIn;
    if added == [] {
      assert acts + added == acts && GivenBy(acts) + [] == GivenBy(acts);
    } else {
      var one := acts + [added[0]];
      GivenOneMore(acts, added[0]);
      if |added| == 2 {
        GivenInIs(Granted);
        GivenOneMore(one, Granted);
        assert acts + added == one + [Granted] && GivenBy(one) + [] == GivenBy(one);
      } else {
        assert added == [added[0]];
      }
    }
  }

  /** Every line hands on at most one pair, on an authenticated link, and its SSID begins above 0x20. */
  lemma DispatchGives(l: Link, line: seq<byte>, saves: seq<bool>) returns (more: seq<Cred>)
    ensures GivenBy(Dispatched(l, line, saves).acts) == GivenBy(l.acts) + more
    ensures |more| <= 1 && (more != [] ==> l.authed && more[0].ssid != [] && !Blank(more[0].ssid[0]))
  {
    assert CMDS[SETWIFI].needsAuth;
    var args := Parsed(line).1;
    ArgsStart(line);
    FirstWordStarts(args);
    var added := DispatchActs(l, line, saves);
    hide Dispatched, Parsed, SetWifi, GivenBy, GivenIn, CString, CMDS, Blank;
    AddedGive(l.acts, added);
    if added == [] {
      more := [];
    } else {
      more := GivenIn(added[0]);
      GivenInIs(added[0]);
    }
  }

  lemma FirstWordStarts(args: seq<byte>)
    requires args == [] || !Blank(args[0])
    ensures SetWifi(CString(args)).Creds? ==>
              SetWifi(CString(args)).c.ssid != [] && !Blank(SetWifi(CString(args)).c.ssid[0])
  {
    var s := CString(args);
    assert s != [] ==> s[0] == args[0] && SkipSpace(s) == s;
    hide CString;
    RunIsSolid(s, SSID_MAX);
  }

  /** A line whose password ends in control characters hands on something else, or nothing. */
  lemma TrimmedPasswordGives(l: Link, c: Cred, saves: seq<bool>)
    requires WordPair(c) && !Blank(c.ssid[0]) && Blank(c.pwd[|c.pwd| - 1])
    ensures GivenBy(Dispatched(l, PREFIX + c.ssid + [SPACE] + c.pwd, saves).acts) != GivenBy(l.acts) + [c]
  {
    var args, after := KeptArgs(c);
    var line := PREFIX + c.ssid + [SPACE] + c.pwd;
    LineParses(c, args, after);
    hide Parsed, SetWifi, GivenBy, GivenIn, CMDS, WordPair, Dispatched;
    SetWifiDispatched(l, line, args, saves);
    var g := GivenBy(l.acts);
    var act := if l.authed then Ran(SETWIFI, args) else Denied(SETWIFI);
    GivenOneMore(l.acts, act);
    GivenInIs(act);
    OneMoreDiffers(g, GivenIn(act), c);
  }

  lemma OneMoreDiffers(g: seq<Cred>, more: seq<Cred>, c: Cred)
    requires more != [c]
    ensures g + more != g + [c]
  {
    if |more| == 1 {
      assert (g + more)[|g|] == more[0] && (g + [c])[|g|] == c;
    }
  }

  /** The command line, its arguments and the blanks after them. */
  lemma LineParses(c: Cred, args: seq<byte>, after: seq<byte>)
    requires c.ssid + [SPACE] + c.pwd == args + after && AllBlank(after)
    requires args != [] && !Blank(args[0]) && !Blank(args[|args| - 1])
    ensures Parsed(PREFIX + c.ssid + [SPACE] + c.pwd) == (CMDS[SETWIFI].name, args)
  {
    var name := CMDS[SETWIFI].name;
    assert NoBlank(name) && name != [] && PREFIX == name + [SPACE];
    hide Parsed, CMDS;
    Rejoined(name, c.ssid, c.pwd, args, after);
    SpacingDoesNotMatter([], name, [SPACE], args, after);
  }

  lemma Rejoined(name: seq<byte>, ssid: seq<byte>, pwd: seq<byte>, args: seq<byte>, after: seq<byte>)
    requires ssid + [SPACE] + pwd == args + after
    ensures name + [SPACE] + ssid + [SPACE] + pwd == [] + name + [SPACE] + args + after
  {
    assert name + [SPACE] + ssid + [SPACE] + pwd == name + [SPACE] + (ssid + [SPACE] + pwd);
    assert [] + name + [SPACE] + args + after == name + [SPACE] + (args + after);
  }

  lemma KeptArgs(c: Cred) returns (args: seq<byte>, after: seq<byte>)
    requires WordPair(c) && !Blank(c.ssid[0]) && Blank(c.pwd[|c.pwd| - 1])
    ensures c.ssid + [SPACE] + c.pwd == args + after && AllBlank(after) && NulFree(args)
    ensures args != [] && !Blank(args[0]) && !Blank(args[|args| - 1])
    ensures SetWifi(args) != Creds(c)
  {
    RTrimCut(c.pwd);
    RTrimCut(c.ssid);
    RTrimEnds(c.pwd);
    RTrimEnds(c.ssid);
    var p, q := RTrim(c.pwd), RTrim(c.ssid);
    hide RTrim, SetWifi;
    if p != [] {
      args, after := c.ssid + [SPACE] + p, c.pwd[|p|..];
      assert c.pwd == p + after;
      SetWifiOf(c.ssid, p);
    } else {
      args, after := q, c.ssid[|q|..] + [SPACE] + c.pwd;
      assert c.ssid == q + c.ssid[|q|..];
      SetWifiOf(q, [33]);
    }
  }

  /**
   * For every pair of byte strings: "SETWIFI <ssid> <pwd>", in any case of letters,
   * hands on exactly that pair if and only if the link is authenticated and the
   * pair is solid words within the limits, the SSID beginning and the password
   * ending above 0x20.
   */
  lemma OneLineRoundTrip(l: Link, cmd: seq<byte>, c: Cred, saves: seq<bool>)
    requires SameName(cmd, CMDS[SETWIFI].name)
    ensures var after := Written(Asm([], l), cmd + [SPACE] + c.ssid + [SPACE] + c.pwd, saves).0;
            (GivenBy(after.link.acts) == GivenBy(l.acts) + [c]) == (l.authed && CarriedOnOneLine(c))
  {
    var after := Written(Asm([], l), cmd + [SPACE] + c.ssid + [SPACE] + c.pwd, saves).0;
    var g := GivenBy(l.acts);
    hide Written, GivenBy;
    GivenBounds(after.link.acts);
    if GivenBy(after.link.acts) == g + [c] {
      assert (g + [c])[|g|] == c;
    }
    if WordPair(c) {
      OneLineWritten(l, cmd, c, saves);
      var line := PREFIX + c.ssid + [SPACE] + c.pwd;
      hide Dispatched;
      var more := DispatchGives(l, line, saves);
      assert |more| == 1 ==> (g + more)[|g|] == more[0];
      if l.authed && CarriedOnOneLine(c) {
        CarriedLineGives(l, c, saves);
      } else if !Blank(c.ssid[0]) && Blank(c.pwd[|c.pwd| - 1]) {
        TrimmedPasswordGives(l, c, saves);
      }
    }
  }

  lemma OneLineWritten(l: Link, cmd: seq<byte>, c: Cred, saves: seq<bool>)
    requires SameName(cmd, CMDS[SETWIFI].name) && WordPair(c)
    ensures Written(Asm([], l), cmd + [SPACE] + c.ssid + [SPACE] + c.pwd, saves).0.link ==
            Dispatched(l, PREFIX + c.ssid + [SPACE] + c.pwd, saves)
  {
    CommandWordIsSolid(cmd);
    OneLineFields(cmd, c);
    hide Fields, FedAll, Dispatched, Solid;
    var line := PREFIX + c.ssid + [SPACE] + c.pwd;
    assert |line| <= 105 && CommandLine(c) == line;
    LineAssembles(l, c.ssid, c.pwd, saves);
  }

  lemma CarriedLineGives(l: Link, c: Cred, saves: seq<bool>)
    requires l.authed && CarriedOnOneLine(c)
    ensures GivenBy(Dispatched(l, PREFIX + c.ssid + [SPACE] + c.pwd, saves).acts) == GivenBy(l.acts) + [c]
  {
    var args := c.ssid + [SPACE] + c.pwd;
    assert args + [] == args && NulFree(args);
    LineParses(c, args, []);
    SetWifiOf(c.ssid, c.pwd);
    hide Parsed, SetWifi, GivenBy, GivenIn, CMDS, WordPair, Dispatched;
    SetWifiDispatched(l, PREFIX + c.ssid + [SPACE] + c.pwd, args, saves);
    GivenOneMore(l.acts, Ran(SETWIFI, args));
    GivenInIs(Ran(SETWIFI, args));
  }
}
