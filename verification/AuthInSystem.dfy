/** AUTH lines on TCP connections inside the whole system: what NORMAL really means. */
module AuthInSystem {
  import opened Bytes
  import opened Text
  import opened CommandDispatch
  import opened LineAssembler
  import opened RollbackPolicy
  import opened SystemRuns
  import Coordinator

  /** cmd_auth on a TCP connection: the right token authenticates the link and proves control. */
  method CmdAuth(ctx: CmdCtx, coord: Coordinator.Syscoord, args: seq<byte>, markOk: bool, nvsOk: bool)
    modifies ctx, coord, coord.monitor, coord.lifeboat, coord.otadata, coord.bootflag
    ensures ctx.State() == Executed(old(ctx.State()), AUTH, args, ctx.saves)
    ensures coord.State() == if Token(args, 65) == old(ctx.token)
                             then Coordinator.TcpAuthed(old(coord.State()), markOk, nvsOk)
                             else old(coord.State())
  {
    hide Token, Coordinator.TcpAuthed;
    var right := Token(args, 65) == ctx.token;
    ctx.Execute(AUTH, args);
    if right {
      coord.AuthOverTcp(markOk, nvsOk);
    }
  }

  /** The system, the token all links share, and the TCP connections by descriptor. */
  datatype Joint = Joint(w: World, token: seq<byte>, conns: map<nat, Asm>)

  /** markOk, nvsOk and saves: the device's answers should the byte complete a line that needs them. */
  datatype Move =
    | Around(e: SystemRuns.Event)
    | Accept(fd: nat)
    | Receive(fd: nat, c: byte, markOk: bool, nvsOk: bool, saves: seq<bool>)
    | HangUp(fd: nat, markOk: bool, nvsOk: bool, saves: seq<bool>)   // the peer is gone; the tail is still dispatched

  function AuthOk(markOk: bool, nvsOk: bool): SystemRuns.Event {
    Quietly(TcpAuth(markOk, nvsOk))
  }

  predicate GrantedNow(before: Link, after: Link) {
    |after.acts| > |before.acts| && after.acts[|after.acts| - 1] == Granted
  }

  /** A connection with the shared token in place; a fresh one if there is none. */
  function Conn(j: Joint, fd: nat): Asm {
    if fd in j.conns then Asm(j.conns[fd].line, j.conns[fd].link.(token := j.token))
    else Asm([], Link(false, j.token, []))
  }

  /** The link after a move on connection fd. */
  function LinkAfter(j: Joint, m: Move): Link
    requires m.Receive? || m.HangUp?
  {
    var a := Conn(j, m.fd);
    if m.Receive? then Fed(a, m.c, m.saves).link else LineDone(a.link, a.line, m.saves)
  }

  function Proven(w: World, granted: bool, markOk: bool, nvsOk: bool): World {
    if granted then SystemRuns.Next(w, AuthOk(markOk, nvsOk)) else w
  }

  function Moved(j: Joint, m: Move): Joint {
    match m
    case Around(e) =>
      Joint(SystemRuns.Next(j.w, e), j.token, if Handle(j.w, e).1 == Stay then j.conns else map[])
    case Accept(fd) => j.(conns := j.conns[fd := Conn(j, fd)])
    case Receive(fd, c, markOk, nvsOk, saves) =>
      var a := Fed(Conn(j, fd), c, saves);
      Joint(Proven(j.w, Grants(j, m), markOk, nvsOk), a.link.token, j.conns[fd := a])
    case HangUp(fd, markOk, nvsOk, saves) =>
      Joint(Proven(j.w, Grants(j, m), markOk, nvsOk), LinkAfter(j, m).token, j.conns - {fd})
  }

  /** A token set on one connection is the one in force on all of them; nothing but a connection's lines changes it. */
  lemma TokenIsShared(j: Joint, m: Move, fd: nat)
    ensures Conn(Moved(j, m), fd).link.token ==
            if m.Receive? || m.HangUp? then LinkAfter(j, m).token else j.token
  {
  }

  /** Control is claimed for TCP by cmd_auth only. */
  predicate Possible(j: Joint, m: Move) {
    match m
    case Around(e) => Enabled(j.w, e) && !e.act.TcpAuth? && !(e.act.ControlClaim? && e.act.source == "TCP")
    case Accept(fd) => fd !in j.conns
    case Receive(fd, _, _, _, _) => fd in j.conns
    case HangUp(fd, _, _, _) => fd in j.conns
  }

  predicate Grants(j: Joint, m: Move) {
    (m.Receive? || m.HangUp?) && GrantedNow(Conn(j, m.fd).link, LinkAfter(j, m))
  }

  function Traced(j: Joint, moves: seq<Move>): Joint
    decreases |moves|
  {
    if moves == [] then j else Moved(Traced(j, moves[..|moves| - 1]), moves[|moves| - 1])
  }

  predicate AllPossible(j: Joint, moves: seq<Move>) {
    forall i :: 0 <= i < |moves| ==> Possible(Traced(j, moves[..i]), moves[i])
  }

  lemma PossiblePrefix(j: Joint, moves: seq<Move>, n: nat)
    requires n <= |moves| && AllPossible(j, moves)
    ensures AllPossible(j, moves[..n])
  {
    hide Traced, Possible;
    forall i | 0 <= i < n ensures Possible(Traced(j, moves[..n][..i]), moves[..n][i]) {
      assert moves[..n][..i] == moves[..i];
    }
  }

  // ---- what a grant is ----

  /** "auth <token>", in any case of letters and with any blanks. */
  predicate AuthLine(line: seq<byte>, token: seq<byte>) {
    SameName(Parsed(line).0, CMDS[AUTH].name) && Token(CString(Parsed(line).1), 65) == token
  }

  lemma DispatchGrants(l: Link, line: seq<byte>, saves: seq<bool>)
    ensures GrantedNow(l, Dispatched(l, line, saves)) <==> AuthLine(line, l.token)
  {
    FindIsExact(Parsed(line).0, AUTH);
    hide Parsed, Find, CString, Token;
  }

  lemma EmptyIsNoAuth(token: seq<byte>)
    ensures !AuthLine([], token)
  {
  }

  /** A move grants exactly when it completes a line that is AUTH with the token in force. */
  lemma GrantIsAuthLine(j: Joint, m: Move)
    requires m.Receive? || m.HangUp?
    ensures Grants(j, m) <==> (m.Receive? ==> m.c == LF) && AuthLine(Conn(j, m.fd).line, j.token)
  {
    hide Dispatched, AuthLine;
    var a := Conn(j, m.fd);
    DispatchGrants(a.link, a.line, m.saves);
    EmptyIsNoAuth(j.token);
  }

  /** A grant promotes at once; a move on a connection that grants nothing leaves the system alone. */
  lemma GrantPromotes(j: Joint, m: Move)
    requires m.Receive? || m.HangUp?
    ensures Grants(j, m) ==> Moved(j, m).w.sys.mode == Coordinator.Normal && Moved(j, m).w.sys.authed
    ensures !Grants(j, m) ==> Moved(j, m).w == j.w
  {
    hide Grants, Fed, LineDone, Coordinator.ControlProven;
    PromotionEffect(j.w, AuthOk(m.markOk, m.nvsOk));
    AuthIsRecorded(j.w, m.markOk, m.nvsOk);
  }

  lemma AuthIsRecorded(w: World, markOk: bool, nvsOk: bool)
    ensures SystemRuns.Next(w, AuthOk(markOk, nvsOk)).sys.authed
  {
  }

  // ---- NORMAL ----

  /** Control was proven over TCP at move k, and the system has stayed in NORMAL since. */
  predicate ProvenAt(j: Joint, moves: seq<Move>, k: nat) {
    && k < |moves|
    && Grants(Traced(j, moves[..k]), moves[k])
    && (forall n :: k < n <= |moves| ==> Traced(j, moves[..n]).w.sys.mode == Coordinator.Normal)
  }

  lemma StepMode(j: Joint, m: Move)
    requires Core(j.w) && Possible(j, m)
    ensures Core(Moved(j, m).w)
    ensures j.w.sys.mode != Coordinator.Normal && Moved(j, m).w.sys.mode == Coordinator.Normal ==> Grants(j, m)
  {
    hide Core, Handle, SystemRuns.Next, Fed, Dispatched;
    match m
    case Around(e) =>
      NextCore(j.w, e);
      ModeChangesOnlyByPromotionOrReboot(j.w, e);
    case Accept(fd) =>
    case Receive(fd, c, markOk, nvsOk, saves) => AuthKeepsCore(j.w, markOk, nvsOk);
    case HangUp(fd, markOk, nvsOk, saves) => AuthKeepsCore(j.w, markOk, nvsOk);
  }

  lemma AuthKeepsCore(w: World, markOk: bool, nvsOk: bool)
    requires Core(w)
    ensures Core(SystemRuns.Next(w, AuthOk(markOk, nvsOk)))
  {
    hide Coordinator.TcpAuthed;
    assert Enabled(w, AuthOk(markOk, nvsOk));
    hide Core, SystemRuns.Next, Enabled;
    NextCore(w, AuthOk(markOk, nvsOk));
  }

  lemma ProvenLonger(j: Joint, moves: seq<Move>, k: nat)
    requires moves != [] && Traced(j, moves).w.sys.mode == Coordinator.Normal
    requires ProvenAt(j, moves[..|moves| - 1], k)
    ensures ProvenAt(j, moves, k)
  {
    hide Traced, Grants;
    var before := moves[..|moves| - 1];
    forall n | k < n <= |moves| ensures Traced(j, moves[..n]).w.sys.mode == Coordinator.Normal {
      assert if n < |moves| then before[..n] == moves[..n] else moves[..n] == moves;
    }
    assert before[..k] == moves[..k] && before[k] == moves[k];
  }

  lemma ProvenJustNow(j: Joint, moves: seq<Move>)
    requires moves != [] && Traced(j, moves).w.sys.mode == Coordinator.Normal
    requires Grants(Traced(j, moves[..|moves| - 1]), moves[|moves| - 1])
    ensures ProvenAt(j, moves, |moves| - 1)
  {
    hide Traced, Grants;
    assert moves[..|moves|] == moves;
  }

  lemma {:induction false} NormalIsProven(j: Joint, moves: seq<Move>)
    requires Core(j.w) && j.w.sys.mode != Coordinator.Normal && AllPossible(j, moves)
    ensures Core(Traced(j, moves).w)
    ensures Traced(j, moves).w.sys.mode == Coordinator.Normal ==> exists k: nat :: ProvenAt(j, moves, k)
    decreases |moves|
  {
    if moves != [] {
      var n := |moves| - 1;
      var before := Traced(j, moves[..n]);
      PossiblePrefix(j, moves, n);
      NormalIsProven(j, moves[..n]);
      assert Traced(j, moves) == Moved(before, moves[n]) && Possible(before, moves[n]);
      hide Moved, Core, Grants, Possible, Traced, AllPossible, ProvenAt;
      StepMode(before, moves[n]);
      if Traced(j, moves).w.sys.mode == Coordinator.Normal {
        if before.w.sys.mode == Coordinator.Normal {
          var k: nat :| ProvenAt(j, moves[..n], k);
          ProvenLonger(j, moves, k);
        } else {
          ProvenJustNow(j, moves);
        }
      }
    }
  }

  function PowerUp(b: Board, token: seq<byte>): Joint {
    Joint(World(Coordinator.BootUp(b), false), token, map[])
  }

  /**
   * Over every mixture of TCP connections, Wi-Fi events, BLE transfers and reboots:
   * the system is in NORMAL only if some TCP connection completed an AUTH line
   * with the token then in force, and nothing has taken it out of NORMAL since.
   */
  lemma NormalMeansAuthenticated(b: Board, token: seq<byte>, moves: seq<Move>)
    requires AllPossible(PowerUp(b, token), moves)
    requires Traced(PowerUp(b, token), moves).w.sys.mode == Coordinator.Normal
    ensures exists k: nat :: ProvenAt(PowerUp(b, token), moves, k)
                             && AuthCompleted(Traced(PowerUp(b, token), moves[..k]), moves[k])
  {
    BootCore(b);
    hide Traced, Core, Grants, Coordinator.BootUp, AllPossible, AuthCompleted;
    NormalIsProven(PowerUp(b, token), moves);
    var k: nat :| ProvenAt(PowerUp(b, token), moves, k);
    GrantCompletes(Traced(PowerUp(b, token), moves[..k]), moves[k]);
  }

  /** The move ends a line on a TCP connection, and the line is AUTH with the token in force. */
  predicate AuthCompleted(j: Joint, m: Move) {
    (m.Receive? || m.HangUp?) && (m.Receive? ==> m.c == LF) && AuthLine(Conn(j, m.fd).line, j.token)
  }

  lemma GrantCompletes(j: Joint, m: Move)
    requires Grants(j, m)
    ensures AuthCompleted(j, m)
  {
    GrantIsAuthLine(j, m);
    hide AuthLine;
  }

  // ---- connections ----

  /** On every connection nothing but the open commands has run before a granted AUTH. */
  ghost predicate AllGuarded(j: Joint) {
    forall fd :: fd in j.conns ==> Guarded(j.conns[fd].link, 0)
  }

  lemma MoveGuarded(j: Joint, m: Move)
    requires AllGuarded(j) && Possible(j, m)
    ensures AllGuarded(Moved(j, m))
  {
    hide SystemRuns.Next, Handle, Dispatched, Enabled, Fed;
    if m.Receive? {
      var a := Conn(j, m.fd);
      assert Guarded(a.link, 0);
      StreamGuarded(a, 0, [m.c], m.saves);
      OneByte(a, m.c, m.saves);
    }
  }

  lemma OneByte(a: Asm, c: byte, saves: seq<bool>)
    ensures FedAll(a, [c], saves) == Fed(a, c, saves)
  {
    assert FedAll(Fed(a, c, saves), [c][1..], saves) == Fed(a, c, saves);
  }

  /** Over every mixture of events, on every connection: no privileged command before a granted AUTH of its own. */
  lemma {:induction false} ConnectionsGuarded(b: Board, token: seq<byte>, moves: seq<Move>)
    requires AllPossible(PowerUp(b, token), moves)
    ensures AllGuarded(Traced(PowerUp(b, token), moves))
    decreases |moves|
  {
    if moves != [] {
      var n := |moves| - 1;
      PossiblePrefix(PowerUp(b, token), moves, n);
      ConnectionsGuarded(b, token, moves[..n]);
      var before := Traced(PowerUp(b, token), moves[..n]);
      assert Possible(before, moves[n]) && Traced(PowerUp(b, token), moves) == Moved(before, moves[n]);
      hide Moved, Possible, AllGuarded, Traced;
      MoveGuarded(before, moves[n]);
    }
  }
}
