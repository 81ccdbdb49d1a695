/** One command line: trimming in place, the command table, and who may run what. */
module CommandDispatch {
  import opened Bytes
  import opened Text

  // ---- the table ----

  datatype Entry = Entry(name: seq<byte>, needsAuth: bool)

  const CMDS: seq<Entry> := [
    Entry([112, 105, 110, 103], false),                          // ping
    Entry([97, 117, 116, 104], false),                           // auth
    Entry([115, 101, 116, 116, 111, 107, 101, 110], true),       // settoken
    Entry([100, 105, 97, 103], true),                            // diag
    Entry([108, 101, 100, 95, 111, 110], true),                  // led_on
    Entry([108, 101, 100, 95, 111, 102, 102], true),             // led_off
    Entry([118, 101, 114, 115, 105, 111, 110], false),           // version
    Entry([111, 116, 97], true),                                 // ota
    Entry([115, 101, 116, 119, 105, 102, 105], true),            // setwifi
    Entry([101, 114, 114, 115, 114, 99], false),                 // errsrc
    Entry([100, 104, 116, 63], false),                           // dht?
    Entry([100, 104, 116, 115, 116, 114, 101, 97, 109], true),   // dhtstream
    Entry([100, 104, 116, 115, 116, 97, 116, 101], false)        // dhtstate
  ]

  const AUTH := 1
  const SETTOKEN := 2
  const SETWIFI := 8

  function Fold(c: byte): byte {
    if 65 <= c <= 90 then c + 32 else c
  }

  /** Equal but for the case of ASCII letters. */
  predicate SameName(a: seq<byte>, b: seq<byte>) {
    |a| == |b| && forall i :: 0 <= i < |a| ==> Fold(a[i]) == Fold(b[i])
  }

  // ---- trimming ----

  predicate Blank(c: byte) {
    c <= 32
  }

  function RTrim(s: seq<byte>): seq<byte> {
    if s != [] && Blank(s[|s| - 1]) then RTrim(s[..|s| - 1]) else s
  }

  function LTrim(s: seq<byte>): seq<byte> {
    if s != [] && Blank(s[0]) then LTrim(s[1..]) else s
  }

  /** The run of non-blank bytes s begins with. */
  function Word(s: seq<byte>): seq<byte> {
    if s != [] && !Blank(s[0]) then [s[0]] + Word(s[1..]) else []
  }

  predicate AllBlank(s: seq<byte>) {
    forall i :: 0 <= i < |s| ==> Blank(s[i])
  }

  predicate NoBlank(s: seq<byte>) {
    forall i :: 0 <= i < |s| ==> !Blank(s[i])
  }

  lemma {:induction false} RTrimOf(s: seq<byte>, gap: seq<byte>)
    requires AllBlank(gap) && (s == [] || !Blank(s[|s| - 1]))
    ensures RTrim(s + gap) == s
    decreases |gap|
  {
    if gap == [] {
      assert s + gap == s;
    } else {
      assert (s + gap)[..|s + gap| - 1] == s + gap[..|gap| - 1];
      RTrimOf(s, gap[..|gap| - 1]);
    }
  }

  lemma {:induction false} LTrimOf(gap: seq<byte>, s: seq<byte>)
    requires AllBlank(gap) && (s == [] || !Blank(s[0]))
    ensures LTrim(gap + s) == s
    decreases |gap|
  {
    if gap == [] {
      assert gap + s == s;
    } else {
      assert (gap + s)[1..] == gap[1..] + s;
      LTrimOf(gap[1..], s);
    }
  }

  lemma {:induction false} WordOf(w: seq<byte>, rest: seq<byte>)
    requires NoBlank(w) && (rest == [] || Blank(rest[0]))
    ensures Word(w + rest) == w
    decreases |w|
  {
    if w == [] {
      assert w + rest == rest;
    } else {
      assert (w + rest)[1..] == w[1..] + rest;
      WordOf(w[1..], rest);
    }
  }

  // ---- specification of one line ----

  /** acts: what the link has done since it came up. */
  datatype Link = Link(authed: bool, token: seq<byte>, acts: seq<Act>)

  datatype Act =
    | What                              // no such command
    | Denied(cmd: nat)                  // needs authentication
    | Ran(cmd: nat, args: seq<byte>)
    | Granted                           // the AUTH just run gave the right token

  /** Where name stands in the table, from entry i on; its length if nowhere. */
  function Find(name: seq<byte>, i: nat): (k: nat)
    requires i <= |CMDS|
    ensures i <= k <= |CMDS|
    decreases |CMDS| - i
  {
    if i == |CMDS| || SameName(name, CMDS[i].name) then i else Find(name, i + 1)
  }

  /** cmd_auth's and cmd_settoken's copies: cut to size, trailing blanks off. */
  function Token(args: seq<byte>, size: nat): seq<byte> {
    RTrim(args[..Min(|args|, size)])
  }

  /** saves answers the token writes; beyond its end they succeed. */
  predicate SaveOk(saves: seq<bool>, i: nat) {
    i < |saves| ==> saves[i]
  }

  /** The effect a command has on the link; args is a C string. */
  function Executed(l: Link, cmd: nat, args: seq<byte>, saves: seq<bool>): Link {
    var l1 := l.(acts := l.acts + [Ran(cmd, args)]);
    if cmd == AUTH && Token(args, 65) == l.token then l1.(authed := true, acts := l1.acts + [Granted])
    else if cmd == SETTOKEN && Token(args, 64) != [] && SaveOk(saves, |l.acts|) then l1.(token := Token(args, 64))
    else l1
  }

  /** The name and the arguments on a line. */
  function Parsed(line: seq<byte>): (seq<byte>, seq<byte>) {
    var t := LTrim(RTrim(line));
    WordFits(t);
    (Word(t), LTrim(t[|Word(t)|..]))
  }

  lemma {:induction false} WordFits(s: seq<byte>)
    ensures |Word(s)| <= |s| && Word(s) == s[..|Word(s)|] && NoBlank(Word(s))
    ensures |Word(s)| < |s| ==> Blank(s[|Word(s)|])
  {
    if s != [] && !Blank(s[0]) {
      WordFits(s[1..]);
      assert s == [s[0]] + s[1..];
    }
  }

  function Dispatched(l: Link, line: seq<byte>, saves: seq<bool>): Link {
    var (name, args) := Parsed(line);
    if name == [] then l
    else
      var k := Find(name, 0);
      if k == |CMDS| then l.(acts := l.acts + [What])
      else if CMDS[k].needsAuth && !l.authed then l.(acts := l.acts + [Denied(k)])
      else Executed(l, k, CString(args), saves)
  }

  // ---- the code ----

  /** Overwrites trailing blanks with NULs. */
  method RtrimN(s: array<byte>, len: nat) returns (n: nat)
    requires len <= s.Length
    modifies s
    ensures n <= len && s[..n] == old(s[..n]) == RTrim(old(s[..len]))
    ensures forall i :: n <= i < len ==> s[i] == NUL
    ensures forall i :: len <= i < s.Length ==> s[i] == old(s[i])
  {
    n := len;
    while n > 0 && s[n - 1] <= 32
      invariant n <= len && s[..n] == old(s[..n])
      invariant RTrim(old(s[..n])) == RTrim(old(s[..len]))
      invariant forall i :: n <= i < len ==> s[i] == NUL
      invariant forall i :: len <= i < s.Length ==> s[i] == old(s[i])
    {
      assert old(s[..n])[..n - 1] == old(s[..n - 1]);
      n := n - 1;
      s[n] := NUL;
    }
  }

  /** Skips blanks between at and end. */
  method LskipN(s: array<byte>, at: nat, end: nat) returns (from: nat)
    requires at <= end <= s.Length
    ensures at <= from <= end && s[from..end] == LTrim(s[at..end])
  {
    from := at;
    while from < end && s[from] <= 32
      invariant at <= from <= end && LTrim(s[from..end]) == LTrim(s[at..end])
    {
      assert s[from..end][1..] == s[from + 1..end];
      from := from + 1;
    }
  }

  /** strncasecmp(line, name, n) == 0, for an n that both reach. */
  method NamesMatch(line: array<byte>, at: nat, name: seq<byte>) returns (same: bool)
    requires at + |name| <= line.Length
    ensures same == SameName(line[at..at + |name|], name)
  {
    for i := 0 to |name|
      invariant forall j :: 0 <= j < i ==> Fold(line[at + j]) == Fold(name[j])
    {
      if Fold(line[at + i]) != Fold(name[i]) {
        assert line[at..at + |name|][i] == line[at + i];
        return false;
      }
    }
    same := true;
  }

  class CmdCtx {
    var authed: bool
    var token: seq<byte>
    var acts: seq<Act>
    const saves: seq<bool>

    constructor (token: seq<byte>, saves: seq<bool>)
      ensures State() == Link(false, token, []) && this.saves == saves
    {
      this.token, this.saves := token, saves;
      authed, acts := false, [];
    }

    function State(): Link
      reads this
    {
      Link(authed, token, acts)
    }

    method Execute(cmd: nat, args: seq<byte>)
      modifies this
      ensures State() == Executed(old(State()), cmd, args, saves)
    {
      var call := |acts|;
      acts := acts + [Ran(cmd, args)];
      if cmd == AUTH {
        if Token(args, 65) == token {
          authed := true;
          acts := acts + [Granted];
        }
      } else if cmd == SETTOKEN {
        if args == [] {
          return;
        }
        var buf := Token(args, 64);
        if buf != [] && SaveOk(saves, call) {
          token := buf;
        }
      }
    }

    /** line[len] holds the terminator. */
    method DispatchLine(line: array<byte>, len: nat)
      requires len < line.Length && line[len] == NUL
      modifies this, line
      ensures State() == Dispatched(old(State()), old(line[..len]), saves)
    {
      hide RTrim, LTrim, Word, Find, CString, CMDS, Executed, Blank;
      var end := RtrimN(line, len);
      assert line[0..end] == line[..end];
      var at := LskipN(line, 0, end);
      ghost var t := line[at..end];
      LTrimStarts(line[..end]);
      NoWord(t);
      if at == end {
        return;
      }
      var cmdEnd := WordEnd(line, at, end);
      assert t[..cmdEnd - at] == line[at..cmdEnd] && t[cmdEnd - at..] == line[cmdEnd..end];
      var from := LskipN(line, cmdEnd, end);
      assert line[from..] == line[from..end] + line[end..];
      CStringStops(line[from..end], line[end..]);
      var i := Lookup(line, at, cmdEnd - at);
      if i == |CMDS| {
        acts := acts + [What];
        return;
      }
      if CMDS[i].needsAuth && !authed {
        acts := acts + [Denied(i)];
        return;
      }
      Execute(i, CString(line[from..]));
    }
  }

  /** Where the word at line[at..end] ends. */
  method WordEnd(line: array<byte>, at: nat, end: nat) returns (stop: nat)
    requires at <= end <= line.Length
    ensures at <= stop <= end && line[at..stop] == Word(line[at..end])
  {
    stop := at;
    assert line[at..at] == [];
    while stop < end && line[stop] > 32
      invariant at <= stop <= end && Word(line[at..end]) == line[at..stop] + Word(line[stop..end])
    {
      assert line[stop..end][1..] == line[stop + 1..end];
      assert line[at..stop + 1] == line[at..stop] + [line[stop]];
      Associates(line[at..stop], [line[stop]], Word(line[stop + 1..end]));
      stop := stop + 1;
    }
  }

  /** The scan of the command table. */
  method Lookup(line: array<byte>, at: nat, n: nat) returns (i: nat)
    requires at + n <= line.Length
    ensures i == Find(line[at..at + n], 0)
  {
    hide SameName, CMDS;
    i := 0;
    while i < |CMDS|
      invariant 0 <= i <= |CMDS| && Find(line[at..at + n], 0) == Find(line[at..at + n], i)
    {
      SameLength(line[at..at + n], CMDS[i].name);
      if |CMDS[i].name| == n {
        var same := NamesMatch(line, at, CMDS[i].name);
        if same {
          return;
        }
      }
      i := i + 1;
    }
  }

  lemma SameLength(a: seq<byte>, b: seq<byte>)
    ensures SameName(a, b) ==> |a| == |b|
  {
  }

  lemma NoWord(t: seq<byte>)
    ensures t == [] || !Blank(t[0]) ==> (Word(t) == [] <==> t == [])
  {
  }

  lemma {:induction false} RTrimEnds(s: seq<byte>)
    ensures RTrim(s) == [] || !Blank(RTrim(s)[|RTrim(s)| - 1])
  {
    if s != [] && Blank(s[|s| - 1]) {
      RTrimEnds(s[..|s| - 1]);
    }
  }

  lemma {:induction false} RTrimCut(s: seq<byte>)
    ensures |RTrim(s)| <= |s| && RTrim(s) == s[..|RTrim(s)|] && AllBlank(s[|RTrim(s)|..])
    ensures s != [] && !Blank(s[0]) ==> RTrim(s) != []
    ensures s != [] && Blank(s[|s| - 1]) ==> |RTrim(s)| < |s|
  {
    if s != [] && Blank(s[|s| - 1]) {
      RTrimCut(s[..|s| - 1]);
    }
  }

  lemma {:induction false} LTrimStarts(s: seq<byte>)
    ensures LTrim(s) == [] || !Blank(LTrim(s)[0])
  {
    if s != [] && Blank(s[0]) {
      LTrimStarts(s[1..]);
    }
  }

  lemma {:induction false} CStringStops(s: seq<byte>, rest: seq<byte>)
    requires rest != [] && rest[0] == NUL
    ensures CString(s + rest) == CString(s)
    decreases |s|
  {
    if s == [] {
      assert s + rest == rest;
    } else {
      assert (s + rest)[1..] == s[1..] + rest;
      CStringStops(s[1..], rest);
    }
  }

  // ---- what a line means ----

  /** Blanks around and between the words do not matter. */
  lemma SpacingDoesNotMatter(before: seq<byte>, name: seq<byte>, gap: seq<byte>, args: seq<byte>, after: seq<byte>)
    requires AllBlank(before) && AllBlank(gap) && AllBlank(after) && NoBlank(name) && name != []
    requires args != [] ==> gap != [] && !Blank(args[0]) && !Blank(args[|args| - 1])
    ensures Parsed(before + name + gap + args + after) == (name, args)
  {
    var none: seq<byte> := [];
    assert LTrim(none) == none;
    hide RTrim, LTrim, Word;
    if args == [] {
      assert before + name + gap + args + after == (before + name) + (gap + after);
      RTrimOf(before + name, gap + after);
      LTrimOf(before, name);
      WordOf(name, []);
      assert name + [] == name && name[|name|..] == none;
    } else {
      RTrimOf(before + name + gap + args, after);
      assert before + name + gap + args == before + (name + (gap + args));
      LTrimOf(before, name + (gap + args));
      WordOf(name, gap + args);
      LTrimOf(gap, args);
    }
  }

  /** The table holds no name twice, so the first match is the only one. */
  lemma {:induction false} FindIsExact(name: seq<byte>, k: nat)
    requires k < |CMDS|
    ensures Find(name, 0) == k <==> SameName(name, CMDS[k].name)
  {
    FindFirst(name, 0);
    var f := Find(name, 0);
    if f < |CMDS| && SameName(name, CMDS[k].name) && f != k {
      SameToBoth(name, CMDS[f].name, CMDS[k].name);
      NamesDiffer(f, k);
    }
  }

  lemma {:induction false} FindFirst(name: seq<byte>, i: nat)
    requires i <= |CMDS|
    ensures var f := Find(name, i);
            && (f < |CMDS| ==> SameName(name, CMDS[f].name))
            && (forall j :: i <= j < f ==> !SameName(name, CMDS[j].name))
    decreases |CMDS| - i
  {
    hide SameName, CMDS;
    if i < |CMDS| && !SameName(name, CMDS[i].name) {
      FindFirst(name, i + 1);
    }
  }

  lemma SameToBoth(a: seq<byte>, b: seq<byte>, c: seq<byte>)
    requires SameName(a, b) && SameName(a, c)
    ensures SameName(b, c)
  {
    forall i | 0 <= i < |b| ensures Fold(b[i]) == Fold(c[i]) {
      assert Fold(a[i]) == Fold(b[i]) && Fold(a[i]) == Fold(c[i]);
    }
  }

  /** Two letters of each name already tell any two commands of one length apart. */
  lemma NamesDiffer(j: nat, k: nat)
    requires j < |CMDS| && k < |CMDS| && j != k
    ensures !SameName(CMDS[j].name, CMDS[k].name)
  {
    var a, b := CMDS[j].name, CMDS[k].name;
    assert |a| == |b| ==> Telling(a) != Telling(b);
    hide CMDS;
    assert SameName(a, b) ==> Telling(a) == Telling(b);
  }

  /** The first, third and last letter. */
  function Telling(name: seq<byte>): seq<byte> {
    if |name| < 3 then name else [Fold(name[0]), Fold(name[2]), Fold(name[|name| - 1])]
  }

  /** What one line adds to the link's record. */
  lemma DispatchActs(l: Link, line: seq<byte>, saves: seq<bool>) returns (added: seq<Act>)
    ensures Dispatched(l, line, saves).acts == l.acts + added && |added| <= 2
    ensures |added| == 2 ==> added[0].Ran? && added[0].cmd == AUTH && added[1] == Granted
    ensures forall i :: 0 <= i < |added| && added[i].Ran? ==>
              && added[i].args == CString(Parsed(line).1)
              && added[i].cmd < |CMDS| && (CMDS[added[i].cmd].needsAuth ==> l.authed)
    ensures Dispatched(l, line, saves).authed == (l.authed || |added| == 2)
    ensures Granted in added <==> |added| == 2
  {
    hide Parsed, Find, CString, Token, CMDS;
    var (name, args) := Parsed(line);
    var k := Find(name, 0);
    var ran := Ran(k, CString(args));
    added := if name == [] then []
             else if k == |CMDS| then [What]
             else if CMDS[k].needsAuth && !l.authed then [Denied(k)]
             else if k == AUTH && Token(CString(args), 65) == l.token then [ran, Granted]
             else [ran];
  }

  // ---- who may run what, by name ----

  const OPEN_COMMANDS: seq<string> := ["ping", "auth", "version", "errsrc", "dht?", "dhtstate"]
  const PRIVILEGED_COMMANDS: seq<string> :=
    ["settoken", "diag", "led_on", "led_off", "ota", "setwifi", "dhtstream"]

  predicate Named(name: seq<byte>, words: seq<string>) {
    exists i :: 0 <= i < |words| && SameName(name, Ascii(words[i]))
  }

  lemma FirstNames()
    ensures CMDS[0].name == Ascii("ping") && CMDS[1].name == Ascii("auth") && CMDS[2].name == Ascii("settoken")
    ensures CMDS[3].name == Ascii("diag") && CMDS[4].name == Ascii("led_on")
  {
  }

  lemma MiddleNames()
    ensures CMDS[5].name == Ascii("led_off") && CMDS[6].name == Ascii("version") && CMDS[7].name == Ascii("ota")
    ensures CMDS[8].name == Ascii("setwifi")
  {
  }

  lemma LastNames()
    ensures CMDS[9].name == Ascii("errsrc") && CMDS[10].name == Ascii("dht?") && CMDS[11].name == Ascii("dhtstream")
    ensures CMDS[12].name == Ascii("dhtstate")
  {
  }

  /** The table as the source writes it. */
  lemma CommandTable()
    ensures |CMDS| == 13
    ensures CMDS[0].name == Ascii("ping") && CMDS[1].name == Ascii("auth") && CMDS[2].name == Ascii("settoken")
    ensures CMDS[3].name == Ascii("diag") && CMDS[4].name == Ascii("led_on") && CMDS[5].name == Ascii("led_off")
    ensures CMDS[6].name == Ascii("version") && CMDS[7].name == Ascii("ota") && CMDS[8].name == Ascii("setwifi")
    ensures CMDS[9].name == Ascii("errsrc") && CMDS[10].name == Ascii("dht?") && CMDS[11].name == Ascii("dhtstream")
    ensures CMDS[12].name == Ascii("dhtstate")
  {
    assert |CMDS| == 13;
    hide Ascii, CMDS;
    FirstNames();
    MiddleNames();
    LastNames();
  }

  /** The place of each open and each privileged command in the table. */
  function OpenAt(i: nat): (k: nat)
    requires i < 6
    ensures k < 13
  {
    [0, 1, 6, 9, 10, 12][i]
  }

  function PrivilegedAt(i: nat): (k: nat)
    requires i < 7
    ensures k < 13
  {
    [2, 3, 4, 5, 7, 8, 11][i]
  }

  lemma OpenEntry(i: nat)
    requires i < 6
    ensures CMDS[OpenAt(i)].name == Ascii(OPEN_COMMANDS[i]) && !CMDS[OpenAt(i)].needsAuth
  {
    CommandTable();
    hide Ascii;
  }

  lemma PrivilegedEntry(i: nat)
    requires i < 7
    ensures CMDS[PrivilegedAt(i)].name == Ascii(PRIVILEGED_COMMANDS[i]) && CMDS[PrivilegedAt(i)].needsAuth
  {
    CommandTable();
    hide Ascii;
  }

  lemma EveryEntryIsOneOf(k: nat)
    requires k < |CMDS|
    ensures (exists i: nat :: i < 6 && OpenAt(i) == k) || (exists i: nat :: i < 7 && PrivilegedAt(i) == k)
  {
    assert OpenAt(0) == 0 && OpenAt(1) == 1 && OpenAt(2) == 6 && OpenAt(3) == 9 && OpenAt(4) == 10 && OpenAt(5) == 12;
    assert PrivilegedAt(0) == 2 && PrivilegedAt(1) == 3 && PrivilegedAt(2) == 4 && PrivilegedAt(3) == 5;
    assert PrivilegedAt(4) == 7 && PrivilegedAt(5) == 8 && PrivilegedAt(6) == 11;
  }

  /** The flag of an entry says exactly whether its name is a privileged one. */
  lemma FlagIsByName(k: nat)
    requires k < |CMDS|
    ensures CMDS[k].needsAuth ==> Named(CMDS[k].name, PRIVILEGED_COMMANDS)
    ensures !CMDS[k].needsAuth ==> Named(CMDS[k].name, OPEN_COMMANDS)
  {
    EveryEntryIsOneOf(k);
    if i: nat :| i < 6 && OpenAt(i) == k {
      OpenEntry(i);
    } else {
      var i: nat :| i < 7 && PrivilegedAt(i) == k;
      PrivilegedEntry(i);
    }
  }

  /** A name stands in the table, with the flag of its list, exactly if it is in one of the lists. */
  lemma FoundByName(name: seq<byte>)
    ensures var k := Find(name, 0);
            && (Named(name, PRIVILEGED_COMMANDS) <==> k < |CMDS| && CMDS[k].needsAuth)
            && (Named(name, OPEN_COMMANDS) <==> k < |CMDS| && !CMDS[k].needsAuth)
  {
    hide Find, Ascii, OpenAt, PrivilegedAt;
    var k := Find(name, 0);
    if Named(name, PRIVILEGED_COMMANDS) {
      var i :| 0 <= i < |PRIVILEGED_COMMANDS| && SameName(name, Ascii(PRIVILEGED_COMMANDS[i]));
      PrivilegedEntry(i);
      FindIsExact(name, PrivilegedAt(i));
    }
    if Named(name, OPEN_COMMANDS) {
      var i :| 0 <= i < |OPEN_COMMANDS| && SameName(name, Ascii(OPEN_COMMANDS[i]));
      OpenEntry(i);
      FindIsExact(name, OpenAt(i));
    }
    if k < |CMDS| {
      FindIsExact(name, k);
      FlagIsByName(k);
      if CMDS[k].needsAuth {
        SameNamed(name, CMDS[k].name, PRIVILEGED_COMMANDS);
      } else {
        SameNamed(name, CMDS[k].name, OPEN_COMMANDS);
      }
    }
  }

  lemma SameNamed(a: seq<byte>, b: seq<byte>, words: seq<string>)
    requires SameName(a, b) && Named(b, words)
    ensures Named(a, words)
  {
    var i :| 0 <= i < |words| && SameName(b, Ascii(words[i]));
    assert SameName(a, Ascii(words[i])) by {
      hide Ascii;
      forall j | 0 <= j < |a| ensures Fold(a[j]) == Fold(Ascii(words[i])[j]) {
        assert Fold(a[j]) == Fold(b[j]);
      }
    }
  }

  /**
   * What a line does, by the name on it: an open command runs, a privileged one
   * runs on an authenticated link and is denied on any other, anything else is
   * answered WHAT, and a blank line does nothing.
   */
  lemma NameDecides(l: Link, line: seq<byte>, saves: seq<bool>) returns (added: seq<Act>)
    ensures Dispatched(l, line, saves).acts == l.acts + added
    ensures var (name, args) := Parsed(line);
            if name == [] then added == []
            else if Named(name, PRIVILEGED_COMMANDS) && !l.authed then |added| == 1 && added[0].Denied?
            else if Named(name, PRIVILEGED_COMMANDS) || Named(name, OPEN_COMMANDS) then
              && added != [] && added[0].Ran? && added[0].args == CString(args)
              && added[0].cmd < |CMDS| && SameName(name, CMDS[added[0].cmd].name)
            else added == [What]
    ensures added == [] || !added[0].Ran? || (added[0].cmd != AUTH && added[0].cmd != SETTOKEN) ==>
              Dispatched(l, line, saves).authed == l.authed && Dispatched(l, line, saves).token == l.token
  {
    var (name, args) := Parsed(line);
    var k := Find(name, 0);
    FoundByName(name);
    if k < |CMDS| {
      FindIsExact(name, k);
    }
    hide Parsed, Find, CString, Token, CMDS, Named, SameName;
    var ran := Ran(k, CString(args));
    added := if name == [] then []
             else if k == |CMDS| then [What]
             else if CMDS[k].needsAuth && !l.authed then [Denied(k)]
             else if k == AUTH && Token(CString(args), 65) == l.token then [ran, Granted]
             else [ran];
    assert l.acts + [] == l.acts && l.acts + [ran] + [Granted] == l.acts + [ran, Granted];
  }

  /** Equal, or the two cases of one letter. */
  predicate SameLetter(c: byte, d: byte) {
    c == d || (65 <= c <= 90 && d == c + 32) || (65 <= d <= 90 && c == d + 32)
  }

  /** Letters of either case are the same, and nothing else is. */
  lemma CaseIsFolded(c: byte, d: byte)
    ensures Fold(c) == Fold(d) <==> SameLetter(c, d)
  {
  }

  /** So a command may be typed in any mixture of capitals. */
  lemma CapitalsDoNotMatter(a: seq<byte>, b: seq<byte>)
    ensures SameName(a, b) <==> |a| == |b| && forall i :: 0 <= i < |a| ==> SameLetter(a[i], b[i])
  {
    if |a| == |b| {
      forall i | 0 <= i < |a| ensures Fold(a[i]) == Fold(b[i]) <==> SameLetter(a[i], b[i]) {
        CaseIsFolded(a[i], b[i]);
      }
    }
  }

  // ---- tokens ----

  lemma {:induction false} NothingToTrim(s: seq<byte>)
    requires NoBlank(s)
    ensures RTrim(s) == s && CString(s) == s
  {
    CStringOfNulFree(s);
  }

  lemma CommandWithArgument(word: seq<byte>, arg: seq<byte>)
    requires NoBlank(word) && word != [] && Edged(arg)
    ensures Parsed(word + [SPACE] + arg) == (word, arg)
  {
    assert [] + word + [SPACE] + arg + [] == word + [SPACE] + arg;
    SpacingDoesNotMatter([], word, [SPACE], arg, []);
  }

  /** Not empty, neither beginning nor ending with a blank, without a NUL. */
  predicate Edged(t: seq<byte>) {
    t != [] && t[0] > 32 && t[|t| - 1] > 32 && NulFree(t)
  }

  /** t is the token, or the token, blanks up to the 65th byte, and more. */
  predicate Opens(t: seq<byte>, token: seq<byte>) {
    t == token || (0 < |token| < 65 < |t| && token[|token| - 1] > 32 && token <= t && AllBlank(t[|token|..65]))
  }

  lemma TokenOpens(t: seq<byte>, token: seq<byte>)
    requires Edged(t) && |token| <= 64
    ensures Token(t, 65) == token <==> Opens(t, token)
  {
    var u := t[..Min(|t|, 65)];
    RTrimCut(u);
    RTrimEnds(u);
    hide RTrim;
    if |t| > 65 {
      assert t[|RTrim(u)|..65] == u[|RTrim(u)|..];
      if Opens(t, token) {
        assert u == token + t[|token|..65];
        RTrimOf(token, t[|token|..65]);
      }
    }
  }

  /** AUTH grants exactly with the token, byte for byte; only what lies beyond the 65th byte is not looked at. */
  lemma AuthComparesTokens(l: Link, word: seq<byte>, t: seq<byte>, saves: seq<bool>)
    requires SameName(word, Ascii("auth")) && NoBlank(word) && Edged(t) && |l.token| <= 64
    ensures var after := Dispatched(l, word + [SPACE] + t, saves);
            && after.acts == l.acts + (if Opens(t, l.token) then [Ran(AUTH, t), Granted] else [Ran(AUTH, t)])
            && after.authed == (l.authed || Opens(t, l.token)) && after.token == l.token
  {
    CommandTable();
    FindIsExact(word, AUTH);
    CommandWithArgument(word, t);
    CStringOfNulFree(t);
    TokenOpens(t, l.token);
    assert !CMDS[AUTH].needsAuth && |Ascii("auth")| == 4;
    hide Parsed, Find, CMDS, Token, CString, RTrim, Ascii, Opens;
    assert l.acts + [Ran(AUTH, t)] + [Granted] == l.acts + [Ran(AUTH, t), Granted];
  }

  lemma ArgsStart(line: seq<byte>)
    ensures Parsed(line).1 == [] || !Blank(Parsed(line).1[0])
  {
    var t := LTrim(RTrim(line));
    WordFits(t);
    LTrimStarts(t[|Word(t)|..]);
  }

  /** Whatever a line makes the token is not empty, has at most 64 bytes, no blank at either end, and opens the link. */
  lemma StoredTokenOpens(l: Link, line: seq<byte>, m: Link, saves: seq<bool>)
    requires Dispatched(l, line, saves).token == m.token != l.token
    ensures l.authed && Edged(m.token) && |m.token| <= 64
    ensures Dispatched(m, Ascii("auth ") + m.token, saves).authed
  {
    hide Parsed, Find, Dispatched, Executed, Token;
    TokenIsEdged(l, line, saves);
    AuthWord();
    AuthComparesTokens(m, Ascii("auth"), m.token, saves);
  }

  lemma AuthWord()
    ensures Ascii("auth ") == Ascii("auth") + [SPACE] && SameName(Ascii("auth"), Ascii("auth"))
    ensures NoBlank(Ascii("auth"))
  {
  }

  lemma TokenIsEdged(l: Link, line: seq<byte>, saves: seq<bool>)
    requires Dispatched(l, line, saves).token != l.token
    ensures var t := Dispatched(l, line, saves).token; l.authed && Edged(t) && |t| <= 64
  {
    CommandTable();
    assert CMDS[SETTOKEN].needsAuth;
    var args := CString(Parsed(line).1);
    ArgsStart(line);
    CStringIsPrefix(Parsed(line).1);
    var u := args[..Min(|args|, 64)];
    RTrimCut(u);
    RTrimEnds(u);
    hide Parsed, Find, CMDS, CString, RTrim, Ascii;
  }

  /** SETTOKEN on an authenticated link replaces the token, cut to 64 bytes, if it can be saved; on no other link. */
  lemma SettokenReplaces(l: Link, word: seq<byte>, t: seq<byte>, saves: seq<bool>)
    requires SameName(word, Ascii("settoken")) && NoBlank(word) && NoBlank(t) && t != []
    ensures var after := Dispatched(l, word + [SPACE] + t, saves);
            && after.token == (if l.authed && SaveOk(saves, |l.acts|) then t[..Min(|t|, 64)] else l.token)
            && after.authed == l.authed
            && after.acts == l.acts + [if l.authed then Ran(SETTOKEN, t) else Denied(SETTOKEN)]
  {
    CommandTable();
    FindIsExact(word, SETTOKEN);
    CommandWithArgument(word, t);
    NothingToTrim(t);
    NothingToTrim(t[..Min(|t|, 64)]);
    assert Token(t, 64) == t[..Min(|t|, 64)] != [];
    assert CMDS[SETTOKEN].needsAuth && |Ascii("settoken")| == 8;
    hide Parsed, Find, CMDS, Token, CString, RTrim, Ascii;
  }

  // ---- no privileged command without authentication ----

  /** Anything but the six open commands. */
  predicate Privileged(a: Act) {
    a.Ran? && !(a.cmd < |CMDS| && Named(CMDS[a.cmd].name, OPEN_COMMANDS))
  }

  /** From the n-th act on, every privileged command comes after a granted AUTH. */
  ghost predicate Guarded(l: Link, n: nat) {
    n <= |l.acts| && AuthFirst(l.acts[n..]) && (l.authed ==> Granted in l.acts[n..])
  }

  ghost predicate AuthFirst(acts: seq<Act>) {
    forall i :: 0 <= i < |acts| && Privileged(acts[i]) ==> Granted in acts[..i]
  }

  lemma GuardedAppend(acts: seq<Act>, a: Act)
    requires AuthFirst(acts) && (Privileged(a) ==> Granted in acts)
    ensures AuthFirst(acts + [a])
  {
    var all := acts + [a];
    forall i | 0 <= i <= |acts| && Privileged(all[i]) ensures Granted in all[..i] {
      assert all[..i] == acts[..i];
    }
  }

  /** One line's acts on top of guarded ones. */
  lemma AddedGuarded(acts: seq<Act>, added: seq<Act>, authed: bool)
    requires AuthFirst(acts) && (authed ==> Granted in acts) && |added| <= 2
    requires added != [] ==> !Privileged(added[0]) || authed
    requires |added| == 2 ==> added[1] == Granted
    ensures AuthFirst(acts + added)
  {
    hide AuthFirst, Privileged;
    if added == [] {
      assert acts + added == acts;
    } else {
      GuardedAppend(acts, added[0]);
      if |added| == 2 {
        GrantIsOpen();
        GuardedAppend(acts + [added[0]], Granted);
        assert acts + added == acts + [added[0]] + [Granted];
      } else {
        assert acts + added == acts + [added[0]];
      }
    }
  }

  lemma GrantIsOpen()
    ensures !Privileged(Granted)
  {
  }

  lemma DispatchGuarded(l: Link, n: nat, line: seq<byte>, saves: seq<bool>)
    requires Guarded(l, n)
    ensures Guarded(Dispatched(l, line, saves), n)
  {
    var added := DispatchActs(l, line, saves);
    var after := Dispatched(l, line, saves);
    if added != [] && added[0].Ran? {
      FlagIsByName(added[0].cmd);
    }
    hide Dispatched, AuthFirst, Named, CMDS, Parsed, CString;
    assert after.acts[n..] == l.acts[n..] + added && after.acts[|l.acts|..] == added;
    AddedGuarded(l.acts[n..], added, l.authed);
  }
}
