/** Partitions, image states, the post-rollback flag, and the monitor's rollback policy over them. */
module RollbackPolicy {
  import opened Bytes

  datatype Part = Factory | Ota0 | Ota1

  /** Unreadable: esp_ota_get_state_partition fails for the slot. */
  datatype Img = New | PendingVerify | Valid | Invalid | Aborted | Undefined | Unreadable

  /** The one-byte NVS cell behind the post-rollback flag. */
  datatype Cell = Missing | Stored(v: byte)

  /** What survives a reboot. */
  datatype Board = Board(parts: set<Part>, running: Part, ota0: Img, ota1: Img, flag: Cell)

  predicate Fresh(i: Img) {
    i == New || i == PendingVerify
  }

  function ImgOf(b: Board, p: Part): Img {
    match p case Factory => Unreadable case Ota0 => b.ota0 case Ota1 => b.ota1
  }

  function SetImg(b: Board, p: Part, i: Img): Board {
    match p case Factory => b case Ota0 => b.(ota0 := i) case Ota1 => b.(ota1 := i)
  }

  predicate Eligible(b: Board) {
    b.running != Factory && Fresh(ImgOf(b, b.running))
  }

  predicate PostRollback(b: Board) {
    b.flag.Stored? && b.flag.v != 0
  }

  function FlagSet(c: Cell, on: bool, nvsOk: bool): Cell {
    if nvsOk then Stored(if on then 1 else 0) else c
  }

  datatype Target = NoTarget | To(part: Part)

  function Other(p: Part): Target {
    match p case Factory => NoTarget case Ota0 => To(Ota1) case Ota1 => To(Ota0)
  }

  function FallbackTarget(b: Board): Target {
    if Factory in b.parts && b.running != Factory then To(Factory)
    else if Other(b.running).To? && Other(b.running).part in b.parts then Other(b.running)
    else NoTarget
  }

  /** What the device answers while a rollback is tried. */
  datatype RollbackIo = RollbackIo(officialOk: bool, nvsOk: bool, setBootOk: bool)

  /** next: the partition a manual fallback managed to make the boot partition. */
  datatype Reboot = Stay | Official | Manual(next: Target) | Plain

  function TryRollback(b: Board, io: RollbackIo): (Board, Reboot) {
    if io.officialOk then (SetImg(b, b.running, Invalid), Official)
    else
      match FallbackTarget(b)
      case NoTarget => (b, Stay)
      case To(p) =>
        var b1 := b.(flag := FlagSet(b.flag, true, io.nvsOk));
        (if io.setBootOk then SetImg(b1, p, New) else b1, Manual(if io.setBootOk then To(p) else NoTarget))
  }

  // ---- the boot loader, as a contract ----

  datatype Boot = Boot(running: Part, ota0: Img, ota1: Img)

  /**
   * A boot picks some app partition and never makes a slot NEW or PENDING_VERIFY
   * that was neither. After an official rollback it does not pick the slot just
   * marked invalid, nor one that is still unverified; after a manual fallback that
   * could set the boot partition it picks that one.
   */
  predicate BootAllowed(b: Board, how: Reboot, boot: Boot) {
    && boot.running in b.parts
    && (Fresh(boot.ota0) ==> Fresh(b.ota0))
    && (Fresh(boot.ota1) ==> Fresh(b.ota1))
    && (how == Official ==>
          boot.running != b.running &&
          !Fresh(match boot.running case Factory => Unreadable case Ota0 => boot.ota0 case Ota1 => boot.ota1))
    && (how.Manual? && how.next.To? ==> boot.running == how.next.part)
  }

  /** main clears the flag when the factory image runs. */
  function Booted(b: Board, boot: Boot, nvsOk: bool): Board {
    Board(b.parts, boot.running, boot.ota0, boot.ota1,
          if boot.running == Factory then FlagSet(b.flag, false, nvsOk) else b.flag)
  }

  // ---- the code ----

  class BootFlag {
    var cell: Cell

    constructor (cell: Cell)
      ensures this.cell == cell
    {
      this.cell := cell;
    }

    /** Reads first; rewrites only a different value. */
    method SetPostRollback(on: bool, nvsOk: bool)
      modifies this
      ensures cell == FlagSet(old(cell), on, nvsOk)
    {
      var want: byte := if on then 1 else 0;
      if cell == Stored(want) {
        return;
      }
      if nvsOk {
        cell := Stored(want);
      }
    }

    method IsPostRollback() returns (r: bool)
      ensures r == (cell.Stored? && cell.v != 0)
    {
      r := cell.Stored? && cell.v != 0;
    }
  }

  class OtaData {
    const parts: set<Part>
    var running: Part
    var ota0: Img
    var ota1: Img

    constructor (parts: set<Part>, running: Part, ota0: Img, ota1: Img)
      ensures this.parts == parts && this.running == running && this.ota0 == ota0 && this.ota1 == ota1
    {
      this.parts, this.running, this.ota0, this.ota1 := parts, running, ota0, ota1;
    }

    method SetImage(p: Part, i: Img)
      modifies this
      ensures running == old(running)
      ensures ota0 == (if p == Ota0 then i else old(ota0)) && ota1 == (if p == Ota1 then i else old(ota1))
    {
      match p {
        case Factory =>
        case Ota0 => ota0 := i;
        case Ota1 => ota1 := i;
      }
    }

    method GetState(p: Part) returns (i: Img)
      ensures i == match p case Factory => Unreadable case Ota0 => ota0 case Ota1 => ota1
    {
      match p {
        case Factory => i := Unreadable;
        case Ota0 => i := ota0;
        case Ota1 => i := ota1;
      }
    }
  }

  function BoardOf(d: OtaData, f: BootFlag): Board
    reads d, f
  {
    Board(d.parts, d.running, d.ota0, d.ota1, f.cell)
  }

  method IsRollbackEligible(d: OtaData, f: BootFlag) returns (r: bool)
    ensures r == Eligible(BoardOf(d, f))
  {
    if d.running == Factory {
      return false;
    }
    var st := d.GetState(d.running);
    if st == Unreadable {
      return false;
    }
    r := st == New || st == PendingVerify;
  }

  method SelectManualFallbackTarget(d: OtaData, f: BootFlag) returns (t: Target)
    ensures t == FallbackTarget(BoardOf(d, f))
  {
    var other := NoTarget;
    var alt := Other(d.running);
    if alt.To? && alt.part in d.parts {
      other := alt;
    }
    if Factory in d.parts && d.running != Factory {
      return To(Factory);
    }
    if other.To? && other.part != d.running {
      return other;
    }
    t := NoTarget;
  }

  method TryRollbackNow(d: OtaData, f: BootFlag, io: RollbackIo) returns (how: Reboot)
    modifies d, f
    ensures (BoardOf(d, f), how) == TryRollback(old(BoardOf(d, f)), io)
  {
    if io.officialOk {
      d.SetImage(d.running, Invalid);
      return Official;
    }
    var target := SelectManualFallbackTarget(d, f);
    match target {
      case NoTarget =>
        how := Stay;
      case To(p) =>
        f.SetPostRollback(true, io.nvsOk);
        if io.setBootOk {
          d.SetImage(p, New);
        }
        how := Manual(if io.setBootOk then target else NoTarget);
    }
  }

  // ---- factory first, never the running image ----

  /** From an OTA slot the fallback is factory exactly if there is one, and otherwise the other slot if there is one. */
  lemma FactoryComesFirst(b: Board)
    requires b.running != Factory
    ensures FallbackTarget(b) == To(Factory) <==> Factory in b.parts
    ensures FallbackTarget(b) == To(Ota1) <==> b.running == Ota0 && Ota1 in b.parts && Factory !in b.parts
    ensures FallbackTarget(b) == To(Ota0) <==> b.running == Ota1 && Ota0 in b.parts && Factory !in b.parts
  {
  }

  /** A rollback changes the images and the flag as follows and, unless nothing is left to fall back to, reboots. */
  lemma RollbackEffect(b: Board, io: RollbackIo)
    requires b.running != Factory
    ensures var (b', how) := TryRollback(b, io); var factory := Factory in b.parts;
            && b'.parts == b.parts && b'.running == b.running
            && (how == Stay <==> !io.officialOk && b.parts <= {b.running})
            && (how == Stay ==> b' == b)
            && (how == Official <==> io.officialOk)
            && (how == Official ==> ImgOf(b', b.running) == Invalid && b'.flag == b.flag)
            && (how.Manual? ==> (PostRollback(b') <==> io.nvsOk || PostRollback(b)))
            && (how.Manual? ==> (how.next.To? <==> io.setBootOk))
            && (how.Manual? && factory && io.setBootOk ==> how.next == To(Factory))
            && (how.Manual? && !factory && io.setBootOk ==>
                how.next == Other(b.running) && ImgOf(b', how.next.part) == New)
            && (how.Manual? ==> ImgOf(b', b.running) == ImgOf(b, b.running))
  {
    TargetIsElsewhere(b);
    FactoryComesFirst(b);
  }

  /** A boot of the factory image drops the flag if it can be written; a boot of a slot keeps it. */
  lemma BootedFlag(b: Board, boot: Boot, nvsOk: bool)
    ensures PostRollback(Booted(b, boot, nvsOk)) <==> PostRollback(b) && !(boot.running == Factory && nvsOk)
    ensures Booted(b, boot, nvsOk).running == boot.running && Booted(b, boot, nvsOk).parts == b.parts
    ensures forall v :: b.flag == Stored(v) ==> (PostRollback(b) <==> v != 0)
  {
  }


  lemma TargetIsElsewhere(b: Board)
    ensures FallbackTarget(b).To? ==> FallbackTarget(b).part in b.parts && FallbackTarget(b).part != b.running
    ensures FallbackTarget(b).NoTarget? && b.running != Factory ==> b.parts <= {b.running}
  {
    forall p | p in b.parts && FallbackTarget(b).NoTarget? && b.running != Factory
      ensures p == b.running
    {
      match p case Factory => case Ota0 => case Ota1 =>
    }
  }
}
