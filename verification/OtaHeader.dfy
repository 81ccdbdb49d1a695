/** The two headers a BLE transfer lives on: the START line and the DATA frame header. */
module OtaHeader {
  import opened Bytes
  import opened Text
  import Crc32

  // "BL_OTA START", "BL_OTA FINISH" and "BL_OTA ABORT"
  const START: seq<byte> := [66, 76, 95, 79, 84, 65, 32, 83, 84, 65, 82, 84]
  const FINISH: seq<byte> := [66, 76, 95, 79, 84, 65, 32, 70, 73, 78, 73, 83, 72]
  const ABORT: seq<byte> := [66, 76, 95, 79, 84, 65, 32, 65, 66, 79, 82, 84]

  const LINE_MAX := 127

  function BlankByte(c: byte): byte {
    if c == CR || c == LF then SPACE else c
  }

  /** The control line as the device sees it: cut to 127 bytes, up to a NUL, line ends blanked. */
  function CtrlLine(data: seq<byte>): seq<byte> {
    Blanked(CString(data[..Min(|data|, LINE_MAX)]))
  }

  function Blanked(s: seq<byte>): seq<byte> {
    seq(|s|, i requires 0 <= i < |s| => BlankByte(s[i]))
  }

  /** The copy and the blanking loop, on the 128-byte line buffer. */
  method CopyLine(data: seq<byte>) returns (line: array<byte>, len: nat)
    ensures fresh(line) && len <= line.Length && line[..len] == CtrlLine(data)
  {
    line := new byte[LINE_MAX + 1](_ => 0);
    var n := Min(|data|, LINE_MAX);
    for i := 0 to n
      invariant forall j :: 0 <= j < i ==> line[j] == data[j]
      invariant forall j :: i <= j < line.Length ==> line[j] == NUL
    {
      line[i] := data[i];
    }
    len := 0;
    while line[len] != NUL
      invariant len <= n && line[n] == NUL
      invariant forall j :: len <= j < n ==> line[j] == data[j]
      invariant forall j :: 0 <= j < len ==> data[j] != NUL && line[j] == BlankByte(data[j])
      decreases n - len
    {
      line[len] := BlankByte(line[len]);
      len := len + 1;
    }
    assert line[..len] == Blanked(data[..len]);
    assert data[..n][..len] == data[..len];
    CStringAt(data[..n], len);
  }

  lemma ControlWords()
    ensures START == Ascii("BL_OTA START") && FINISH == Ascii("BL_OTA FINISH") && ABORT == Ascii("BL_OTA ABORT")
  {
  }

  /** The written bytes begin with word, line ends counting as blanks. */
  predicate Begins(data: seq<byte>, word: seq<byte>) {
    |word| <= |data| && Blanked(data[..|word|]) == word
  }

  /** The copied line begins with a control word exactly when the written bytes do. */
  lemma LineBegins(data: seq<byte>, word: seq<byte>)
    requires |word| <= LINE_MAX && NulFree(word)
    ensures word <= CtrlLine(data) <==> Begins(data, word)
  {
    var cut := data[..Min(|data|, LINE_MAX)];
    var text := CString(cut);
    CStringIsPrefix(cut);
    assert text <= cut && cut <= data;
    if word <= CtrlLine(data) {
      assert data[..|word|] == text[..|word|];
      assert Blanked(text)[..|word|] == Blanked(text[..|word|]);
    }
    if Begins(data, word) {
      assert cut[..|word|] == data[..|word|];
      forall i | 0 <= i < |word| ensures cut[i] != NUL {
        assert cut[i] == data[..|word|][i] && BlankByte(cut[i]) == word[i];
      }
      assert |text| >= |word|;
      assert text[..|word|] == data[..|word|];
      assert Blanked(text)[..|word|] == Blanked(text[..|word|]);
    }
  }

  /** The copied line, byte by byte: up to the first NUL or the 127th byte, CR and LF blanked. */
  lemma LineIs(data: seq<byte>)
    ensures var line := CtrlLine(data);
            && |line| <= 127 && |line| <= |data|
            && (forall i :: 0 <= i < |line| ==> data[i] != 0)
            && (forall i :: 0 <= i < |line| ==> line[i] == if data[i] in {10, 13} then 32 else data[i])
            && (|line| < 127 && |line| < |data| ==> data[|line|] == 0)
  {
    CStringIsPrefix(data[..Min(|data|, LINE_MAX)]);
  }

  // ---- sscanf(line + 12, "%u %x", ...) ----

  datatype Scan<T> = Miss | Hit(value: T, rest: seq<byte>)

  function SkipSign(s: seq<byte>): (bool, seq<byte>) {
    if s != [] && (s[0] == 45 || s[0] == 43) then (s[0] == 45, s[1..]) else (false, s)
  }

  function ScanUnsigned(s: seq<byte>): Scan<word> {
    var (negative, digits) := SkipSign(SkipSpace(s));
    if digits == [] || !IsDigit(digits[0]) then Miss
    else
      var (n, rest) := ScanDec(digits, 0);
      Hit(if n > 0xFFFF_FFFF then 0xFFFF_FFFF
          else if negative then (0x1_0000_0000 - n) % 0x1_0000_0000
          else n, rest)
  }

  function SkipHexPrefix(s: seq<byte>): seq<byte> {
    if |s| >= 3 && s[0] == 48 && (s[1] == 120 || s[1] == 88) && IsHex(s[2]) then s[2..] else s
  }

  function ScanHexWord(s: seq<byte>): Scan<bv32> {
    var (negative, tail) := SkipSign(SkipSpace(s));
    var digits := SkipHexPrefix(tail);
    if digits == [] || !IsHex(digits[0]) then Miss
    else
      var (v, significant, rest) := ScanHex(digits, 0, 0);
      Hit(if significant > 8 then 0xFFFF_FFFF else if negative then 0 - v else v, rest)
  }

  datatype Request = BadFormat | Image(size: word, crc: bv32)

  /** What the device makes of the text after "BL_OTA START". */
  function ParseStart(args: seq<byte>): Request {
    match ScanUnsigned(args)
    case Miss => BadFormat
    case Hit(size, rest) =>
      match ScanHexWord(rest)
      case Miss => BadFormat
      case Hit(crc, _) => if size == 0 then BadFormat else Image(size, crc)
  }

  // ---- the host's side ----

  /** f"BL_OTA START {size} {crc:08X}" */
  function PrintStart(size: word, crc: bv32): seq<byte> {
    START + ([SPACE] + Dec(size) + ([SPACE] + Hex8(crc)))
  }

  /** The printed line survives the copy, and parses back to the same pair. */
  lemma StartRoundTrip(size: word, crc: bv32)
    requires size != 0
    ensures CtrlLine(PrintStart(size, crc)) == PrintStart(size, crc)
    ensures ParseStart(PrintStart(size, crc)[|START|..]) == Image(size, crc)
  {
    var line := PrintStart(size, crc);
    PlainText(size, crc);
    CStringOfNulFree(line);
    assert line[..Min(|line|, LINE_MAX)] == line;
    assert Blanked(line) == line;
    assert line[|START|..] == [SPACE] + Dec(size) + ([SPACE] + Hex8(crc));
    SizeRoundTrip(size, [SPACE] + Hex8(crc));
    CrcRoundTrip(crc);
  }

  /** Size zero is refused, and so is a START without any number after it. */
  lemma NoImageWithoutSize(crc: bv32, rest: seq<byte>)
    ensures ParseStart([SPACE] + Dec(0) + ([SPACE] + Hex8(crc))) == BadFormat
    ensures SkipSpace(rest) == [] ||
            !(IsDigit(SkipSpace(rest)[0]) || SkipSpace(rest)[0] == 43 || SkipSpace(rest)[0] == 45)
            ==> ParseStart(rest) == BadFormat
  {
    hide Hex8;
    SizeRoundTrip(0, [SPACE] + Hex8(crc));
  }

  /** Sizes beyond 32 bits are clamped. */
  lemma SizeRoundTrip(size: nat, tail: seq<byte>)
    requires tail != [] && !IsDigit(tail[0])
    ensures ScanUnsigned([SPACE] + Dec(size) + tail) == Hit(Min(size, 0xFFFF_FFFF), tail)
  {
    var args := [SPACE] + Dec(size) + tail;
    DecIsDigits(size);
    assert args[1..] == Dec(size) + tail;
    assert SkipSpace(args) == Dec(size) + tail;
    ScanOfDec(size, tail);
  }

  /** A minus sign wraps the size, as strtoul does; a plus sign is ignored. */
  lemma SignedSize(size: word, sign: byte, tail: seq<byte>)
    requires tail != [] && !IsDigit(tail[0]) && (sign == 45 || sign == 43)
    ensures ScanUnsigned([SPACE, sign] + Dec(size) + tail) ==
            Hit(if sign == 43 || size == 0 then size else 0x1_0000_0000 - size, tail)
  {
    DecIsDigits(size);
    ScanOfDec(size, tail);
    var args := [SPACE, sign] + Dec(size) + tail;
    assert args[1..][1..] == Dec(size) + tail && SkipSpace(args) == args[1..];
  }

  lemma CrcRoundTrip(crc: bv32)
    ensures ScanHexWord([SPACE] + Hex8(crc)) == Hit(crc, [])
  {
    hide Top, NibbleAt, HexDigit;
    var tail := [SPACE] + Hex8(crc);
    Hex8IsHex(crc);
    assert tail[1..] == Hex8(crc);
    assert SkipSpace(tail) == Hex8(crc);
    assert Hex8(crc)[1] != 120 && Hex8(crc)[1] != 88;
    assert Hex8(crc) + [] == Hex8(crc);
    ScanOfHex8(crc, []);
  }

  /** The checksum may carry a 0x. */
  lemma CrcAfterPrefix(crc: bv32, x: byte)
    requires x == 120 || x == 88
    ensures ScanHexWord([SPACE, 48, x] + Hex8(crc)) == Hit(crc, [])
  {
    hide Top, NibbleAt, HexDigit, ScanHex;
    Hex8IsHex(crc);
    var args := [SPACE, 48, x] + Hex8(crc);
    assert args[1..][2..] == Hex8(crc) && SkipSpace(args) == args[1..] && args[1..][2] == Hex8(crc)[0];
    assert Hex8(crc) + [] == Hex8(crc);
    ScanOfHex8(crc, []);
  }

  /** A minus sign negates it, modulo 2 to the 32nd. */
  lemma NegatedCrc(crc: bv32)
    ensures ScanHexWord([SPACE, 45] + Hex8(crc)) == Hit(0 - crc, [])
  {
    hide Top, NibbleAt, HexDigit, ScanHex;
    Hex8IsHex(crc);
    var args := [SPACE, 45] + Hex8(crc);
    assert args[1..] == [45] + Hex8(crc) && SkipSpace(args) == args[1..] && args[1..][1..] == Hex8(crc);
    assert Hex8(crc)[1] != 120 && Hex8(crc)[1] != 88;
    assert Hex8(crc) + [] == Hex8(crc);
    ScanOfHex8(crc, []);
  }

  /** More than eight significant digits clamp it. */
  lemma LongCrc(crc: bv32)
    ensures ScanHexWord([SPACE, 49] + Hex8(crc)).Hit? && ScanHexWord([SPACE, 49] + Hex8(crc)).value == 0xFFFF_FFFF
  {
    hide Top, NibbleAt, HexDigit, ScanHex;
    Hex8IsHex(crc);
    var args := [SPACE, 49] + Hex8(crc);
    assert args[1..] == [49] + Hex8(crc) && SkipSpace(args) == args[1..] && args[1..][1] == Hex8(crc)[0];
    NineDigits(crc);
  }

  lemma PlainText(size: word, crc: bv32)
    ensures |PrintStart(size, crc)| <= LINE_MAX
    ensures forall i :: 0 <= i < |PrintStart(size, crc)| ==>
              PrintStart(size, crc)[i] >= SPACE
  {
    DecIsDigits(size);
    Hex8IsHex(crc);
  }

  // ---- the DATA frame: <seq:le32><len:le16><payload> ----

  function Frame(seqNo: word, payload: seq<byte>): seq<byte>
    requires |payload| < 0x1_0000
  {
    PackLe32(seqNo) + PackLe16(|payload|) + payload
  }

  lemma FrameRoundTrip(seqNo: word, payload: seq<byte>)
    requires |payload| < 0x1_0000
    ensures var f := Frame(seqNo, payload);
            |f| == 6 + |payload| && RdLe32(f) == seqNo && RdLe16(f[4..]) == |payload| && f[6..] == payload
  {
    Le32RoundTrip(seqNo);
    Le16RoundTrip(|payload|);
    var f := Frame(seqNo, payload);
    assert f[..4] == PackLe32(seqNo);
    assert f[4..6] == PackLe16(|payload|);
    assert f[0] == f[..4][0] && f[1] == f[..4][1] && f[2] == f[..4][2] && f[3] == f[..4][3];
    assert f[4] == f[4..6][0] && f[5] == f[4..6][1];
  }
}