/** Bytes, 32-bit words, and the little-endian lanes both ends of a transfer use. */
module Bytes {

  type byte = x: int | 0 <= x < 256

  /** uint32_t values. */
  type word = x: int | 0 <= x < 0x1_0000_0000

  /** uint32_t addition, wrap-around included. */
  function Add32(a: word, b: word): word {
    (a + b) % 0x1_0000_0000
  }

  function Min(a: int, b: int): int {
    if a < b then a else b
  }

  function RdLe32(p: seq<byte>): word
    requires |p| >= 4
  {
    p[0] as int + 0x100 * (p[1] as int) + 0x1_0000 * (p[2] as int) + 0x100_0000 * (p[3] as int)
  }

  function RdLe16(p: seq<byte>): word
    requires |p| >= 2
  {
    p[0] as int + 0x100 * (p[1] as int)
  }

  /** struct.pack("<I", v) on the host. */
  function PackLe32(v: word): seq<byte> {
    [v % 0x100, v / 0x100 % 0x100, v / 0x100 / 0x100 % 0x100, v / 0x100 / 0x100 / 0x100 % 0x100]
  }

  /** struct.pack("<H", v) on the host. */
  function PackLe16(v: word): seq<byte>
    requires v < 0x1_0000
  {
    [v % 0x100, v / 0x100]
  }

  lemma Le32RoundTrip(v: word)
    ensures RdLe32(PackLe32(v)) == v
  {
    var v1 := v / 0x100;
    var v2 := v1 / 0x100;
    assert v2 / 0x100 < 0x100;
  }

  lemma Le16RoundTrip(v: word)
    requires v < 0x1_0000
    ensures RdLe16(PackLe16(v)) == v
  {
  }

  /** The bytes of a sequence of buffers, in order. */
  function Flatten(bufs: seq<seq<byte>>): seq<byte> {
    if bufs == [] then [] else bufs[0] + Flatten(bufs[1..])
  }

  lemma Associates<T>(a: seq<T>, b: seq<T>, c: seq<T>)
    ensures a + (b + c) == (a + b) + c
  {
  }

  lemma {:induction false} FlattenAppend(a: seq<seq<byte>>, b: seq<seq<byte>>)
    ensures Flatten(a + b) == Flatten(a) + Flatten(b)
  {
    if a == [] {
      assert a + b == b;
    } else {
      FlattenAppend(a[1..], b);
      assert (a + b)[1..] == a[1..] + b;
      Associates(a[0], Flatten(a[1..]), Flatten(b));
    }
  }
}
