/** C-string scanning over bytes, as far as the control lines need it. */
module Text {
  import opened Bytes

  const SPACE: byte := 32
  const LF: byte := 10
  const CR: byte := 13
  const NUL: byte := 0

  predicate IsSpace(c: byte) {
    9 <= c <= 13 || c == 32
  }

  predicate IsDigit(c: byte) {
    48 <= c <= 57
  }

  /** A string literal of the source as bytes. */
  function Ascii(s: string): (b: seq<byte>)
    ensures |b| == |s|
  {
    seq(|s|, i requires 0 <= i < |s| => s[i] as int % 256)
  }

  /** A byte buffer read as a C string: up to the first NUL. */
  function CString(s: seq<byte>): seq<byte> {
    if s == [] || s[0] == NUL then [] else [s[0]] + CString(s[1..])
  }

  lemma {:induction false} CStringAt(s: seq<byte>, k: nat)
    requires k <= |s| && (forall i :: 0 <= i < k ==> s[i] != NUL) && (k == |s| || s[k] == NUL)
    ensures CString(s) == s[..k]
    decreases k
  {
    if k > 0 {
      CStringAt(s[1..], k - 1);
      assert s[..k] == [s[0]] + s[1..][..k - 1];
    }
  }

  predicate NulFree(s: seq<byte>) {
    forall i :: 0 <= i < |s| ==> s[i] != NUL
  }

  lemma {:induction false} CStringIsPrefix(s: seq<byte>)
    ensures CString(s) <= s && NulFree(CString(s))
    ensures |CString(s)| < |s| ==> s[|CString(s)|] == NUL
    decreases |s|
  {
    if s != [] && s[0] != NUL {
      CStringIsPrefix(s[1..]);
    }
  }

  lemma {:induction false} CStringOfNulFree(s: seq<byte>)
    requires NulFree(s)
    ensures CString(s) == s
    decreases |s|
  {
    if s != [] {
      CStringOfNulFree(s[1..]);
    }
  }

  function SkipSpace(s: seq<byte>): seq<byte>
    decreases |s|
  {
    if s != [] && IsSpace(s[0]) then SkipSpace(s[1..]) else s
  }

  // ---- decimal ----

  function Dec(n: nat): seq<byte> {
    if n < 10 then [48 + n] else Dec(n / 10) + [48 + n % 10]
  }

  /** The value of the leading digits on top of acc, and what follows them. */
  function ScanDec(s: seq<byte>, acc: nat): (nat, seq<byte>)
    decreases |s|
  {
    if s != [] && IsDigit(s[0]) then ScanDec(s[1..], 10 * acc + (s[0] as int - 48)) else (acc, s)
  }

  lemma {:induction false} ScanOfDec(n: nat, t: seq<byte>)
    ensures ScanDec(Dec(n) + t, 0) == ScanDec(t, n)
    decreases n
  {
    if n < 10 {
      assert (Dec(n) + t)[1..] == t;
    } else {
      var d: seq<byte> := [48 + n % 10];
      assert Dec(n) + t == Dec(n / 10) + (d + t);
      ScanOfDec(n / 10, d + t);
      assert (d + t)[1..] == t;
    }
  }

  lemma {:induction false} DecIsDigits(n: nat)
    ensures Dec(n) != [] && forall i :: 0 <= i < |Dec(n)| ==> IsDigit(Dec(n)[i])
    ensures n < 0x1_0000_0000 ==> |Dec(n)| <= 10
    decreases n
  {
    if n >= 10 {
      DecIsDigits(n / 10);
      DecLength(n);
    }
  }

  lemma DecLength(n: nat)
    ensures n < 0x1_0000_0000 ==> |Dec(n)| <= 10
  {
    if n < 0x1_0000_0000 {
      var n1 := n / 10;
      var n2 := n1 / 10;
      var n3 := n2 / 10;
      var n4 := n3 / 10;
      var n5 := n4 / 10;
      var n6 := n5 / 10;
      var n7 := n6 / 10;
      var n8 := n7 / 10;
      var n9 := n8 / 10;
      assert n9 < 10;
      assert |Dec(n9)| == 1;
      assert |Dec(n8)| <= 2;
      assert |Dec(n7)| <= 3;
      assert |Dec(n6)| <= 4;
      assert |Dec(n5)| <= 5;
      assert |Dec(n4)| <= 6;
      assert |Dec(n3)| <= 7;
      assert |Dec(n2)| <= 8;
      assert |Dec(n1)| <= 9;
    }
  }

  // ---- hexadecimal ----

  predicate IsHex(c: byte) {
    IsDigit(c) || 65 <= c <= 70 || 97 <= c <= 102
  }

  function Nibble(c: byte): bv32
    requires IsHex(c)
  {
    match c
    case 48 => 0 case 49 => 1 case 50 => 2 case 51 => 3 case 52 => 4
    case 53 => 5 case 54 => 6 case 55 => 7 case 56 => 8 case 57 => 9
    case 65 => 10 case 66 => 11 case 67 => 12 case 68 => 13 case 69 => 14 case 70 => 15
    case 97 => 10 case 98 => 11 case 99 => 12 case 100 => 13 case 101 => 14
    case _ => 15
  }

  /** "%X" of one nibble. */
  function HexDigit(n: bv32): byte {
    if n == 0 then 48 else if n == 1 then 49 else if n == 2 then 50 else if n == 3 then 51
    else if n == 4 then 52 else if n == 5 then 53 else if n == 6 then 54 else if n == 7 then 55
    else if n == 8 then 56 else if n == 9 then 57 else if n == 10 then 65 else if n == 11 then 66
    else if n == 12 then 67 else if n == 13 then 68 else if n == 14 then 69 else 70
  }

  lemma NibbleOfHexDigit(n: bv32)
    requires n < 16
    ensures IsHex(HexDigit(n)) && Nibble(HexDigit(n)) == n
  {
  }

  function PushNibble(acc: bv32, n: bv32): bv32 {
    (acc << 4) | n
  }

  /** Value, number of significant digits, and the rest after the leading hex digits. */
  function ScanHex(s: seq<byte>, acc: bv32, significant: nat): (bv32, nat, seq<byte>)
    decreases |s|
  {
    if s != [] && IsHex(s[0]) then
      ScanHex(s[1..], PushNibble(acc, Nibble(s[0])),
              if significant == 0 && Nibble(s[0]) == 0 then 0 else significant + 1)
    else (acc, significant, s)
  }

  function Shr4(v: bv32): bv32 {
    v >> 4
  }

  function Low4(v: bv32): bv32 {
    v & 0xF
  }

  /** The top k nibbles of v, shifted down. */
  function Top(v: bv32, k: nat): bv32
    requires k <= 8
    decreases 8 - k
  {
    if k == 8 then v else Shr4(Top(v, k + 1))
  }

  function NibbleAt(v: bv32, i: nat): bv32
    requires i < 8
  {
    Low4(Top(v, i + 1))
  }

  /** "%08X". */
  function Hex8(v: bv32): seq<byte> {
    seq(8, i requires 0 <= i < 8 => HexDigit(NibbleAt(v, i)))
  }

  lemma Low4Small(v: bv32)
    ensures Low4(v) < 16
  {
  }

  lemma PushBack(w: bv32)
    ensures PushNibble(Shr4(w), Low4(w)) == w
  {
  }

  lemma TopZero(v: bv32)
    ensures Top(v, 0) == 0
  {
    hide Shr4;
    assert Top(v, 7) == Shr4(v);
    assert Top(v, 5) == Shr4(Shr4(Top(v, 7)));
    assert Top(v, 3) == Shr4(Shr4(Top(v, 5)));
    assert Top(v, 1) == Shr4(Shr4(Top(v, 3)));
    AllShiftedOut(v);
  }

  lemma AllShiftedOut(v: bv32)
    ensures Shr4(Shr4(Shr4(Shr4(Shr4(Shr4(Shr4(Shr4(v)))))))) == 0
  {
  }

  lemma {:induction false} ScanFromNibble(v: bv32, k: nat, sig: nat, t: seq<byte>) returns (n8: nat)
    requires k <= 8 && sig <= k
    ensures n8 <= 8
    ensures ScanHex(Hex8(v)[k..] + t, Top(v, k), sig) == ScanHex(t, v, n8)
    decreases 8 - k
  {
    hide PushNibble, Low4, Shr4, HexDigit, Nibble;
    var s := Hex8(v)[k..] + t;
    if k == 8 {
      assert s == t;
      n8 := sig;
    } else {
      Low4Small(Top(v, k + 1));
      NibbleOfHexDigit(NibbleAt(v, k));
      PushBack(Top(v, k + 1));
      assert s[0] == HexDigit(NibbleAt(v, k));
      assert s[1..] == Hex8(v)[k + 1..] + t;
      n8 := ScanFromNibble(v, k + 1, if sig == 0 && Nibble(s[0]) == 0 then 0 else sig + 1, t);
    }
  }

  lemma ScanOfHex8(v: bv32, t: seq<byte>)
    requires t == [] || !IsHex(t[0])
    ensures ScanHex(Hex8(v) + t, 0, 0).0 == v && ScanHex(Hex8(v) + t, 0, 0).1 <= 8
    ensures ScanHex(Hex8(v) + t, 0, 0).2 == t
  {
    assert Hex8(v)[0..] == Hex8(v);
    var n8 := ScanFromNibble(v, 0, 0, t);
    TopZero(v);
    hide Shr4, Low4;
  }

  lemma Hex8IsHex(v: bv32)
    ensures |Hex8(v)| == 8 && forall i :: 0 <= i < 8 ==> IsHex(Hex8(v)[i])
  {
    forall i | 0 <= i < 8 ensures IsHex(Hex8(v)[i]) {
      Low4Small(Top(v, i + 1));
      NibbleOfHexDigit(NibbleAt(v, i));
    }
  }

  /** After a significant digit every further one counts. */
  lemma {:induction false} MoreDigits(v: bv32, k: nat, acc: bv32, sig: nat)
    requires k <= 8 && sig > 0
    ensures ScanHex(Hex8(v)[k..], acc, sig).1 == sig + 8 - k
    decreases 8 - k
  {
    hide PushNibble, Low4, Shr4, HexDigit, Nibble;
    if k < 8 {
      Hex8IsHex(v);
      var s := Hex8(v)[k..];
      assert s[0] == Hex8(v)[k] && s[1..] == Hex8(v)[k + 1..];
      MoreDigits(v, k + 1, PushNibble(acc, Nibble(s[0])), sig + 1);
    }
  }

  lemma NineDigits(v: bv32)
    ensures ScanHex([49] + Hex8(v), 0, 0).1 == 9
  {
    assert ([49] + Hex8(v))[1..] == Hex8(v) == Hex8(v)[0..];
    MoreDigits(v, 0, PushNibble(0, 1), 1);
  }

  /** Hexadecimal digits of either case. */
  predicate SameDigits(a: seq<byte>, b: seq<byte>) {
    |a| == |b| && forall i :: 0 <= i < |a| ==>
      a[i] == b[i] || (65 <= a[i] <= 70 && b[i] == a[i] + 32)
  }

  lemma {:induction false} HexInEitherCase(a: seq<byte>, b: seq<byte>, acc: bv32, sig: nat)
    requires SameDigits(a, b)
    ensures ScanHex(a, acc, sig).0 == ScanHex(b, acc, sig).0 && ScanHex(a, acc, sig).1 == ScanHex(b, acc, sig).1
    decreases |a|
  {
    hide PushNibble;
    if a != [] {
      SameNibble(a[0], b[0]);
      if IsHex(a[0]) {
        HexInEitherCase(a[1..], b[1..], PushNibble(acc, Nibble(a[0])),
                        if sig == 0 && Nibble(a[0]) == 0 then 0 else sig + 1);
      }
    }
  }

  lemma SameNibble(c: byte, d: byte)
    requires c == d || (65 <= c <= 70 && d == c + 32)
    ensures (IsHex(c) <==> IsHex(d)) && (IsHex(c) ==> Nibble(c) == Nibble(d))
  {
  }

  /** White space is what the C standard says. */
  lemma WhiteSpace(c: byte)
    ensures IsSpace(c) <==> c in {9, 10, 11, 12, 13, 32}
  {
  }
}
