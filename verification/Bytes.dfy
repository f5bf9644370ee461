// Bytes, little-endian fields and the small containers the other modules share.
module Bytes {

  type byte = x: int | 0 <= x < 256

  datatype Option<+T> = None | Some(value: T)

  datatype Result<+T, +E> = Ok(value: T) | Err(error: E)

  function Zeros(n: nat): (z: seq<byte>)
    ensures |z| == n
  {
    seq(n, _ => 0)
  }

  // s with src copied over it from off on.
  function Over(s: seq<byte>, off: nat, src: seq<byte>): (r: seq<byte>)
    requires off + |src| <= |s|
    ensures |r| == |s|
  {
    s[..off] + src + s[off + |src|..]
  }

  // BYTE_0 and BYTE_1 of a 16-bit value, in the order the little-endian writers emit them.
  function Le16(v: int): (s: seq<byte>)
    requires 0 <= v < 0x1_0000
    ensures |s| == 2
  {
    [v % 256, v / 256]
  }

  function FromLe16(lo: byte, hi: byte): (v: nat)
    ensures v < 0x1_0000
    ensures Le16(v) == [lo, hi]
  {
    hi * 256 + lo
  }

  function Le32(v: int): (s: seq<byte>)
    requires 0 <= v < 0x1_0000_0000
    ensures |s| == 4
  {
    Le16(v % 0x1_0000) + Le16(v / 0x1_0000)
  }

  function FromLe32(s: seq<byte>): (v: nat)
    requires |s| == 4
    ensures v < 0x1_0000_0000
    ensures Le32(v) == s
  {
    var lo, hi := FromLe16(s[0], s[1]), FromLe16(s[2], s[3]);
    var v := hi * 0x1_0000 + lo;
    assert v % 0x1_0000 == lo && v / 0x1_0000 == hi;
    assert s == s[..2] + s[2..] && s[..2] == Le16(lo) && s[2..] == Le16(hi);
    v
  }

  lemma Le16RoundTrip(v: int)
    requires 0 <= v < 0x1_0000
    ensures FromLe16(Le16(v)[0], Le16(v)[1]) == v
  {
  }

  lemma Le32RoundTrip(v: int)
    requires 0 <= v < 0x1_0000_0000
    ensures FromLe32(Le32(v)) == v
  {
    Le16RoundTrip(v % 0x1_0000);
    Le16RoundTrip(v / 0x1_0000);
  }

  function Pow2(n: nat): (p: nat)
    ensures p > 0
  {
    if n == 0 then 1 else 2 * Pow2(n - 1)
  }

  // Exclusive or of the low n bits, least significant bit first.
  function XorBits(n: nat, a: nat, b: nat): (r: nat)
    ensures r < Pow2(n)
  {
    if n == 0 then 0 else (a + b) % 2 + 2 * XorBits(n - 1, a / 2, b / 2)
  }

  lemma LowBit(a: nat, b: nat, high: nat)
    ensures var x := (a + b) % 2 + 2 * high; x / 2 == high && (x + b) % 2 == a % 2
  {
    assert ((a + b) % 2 + b) % 2 == a % 2;
  }

  lemma {:induction false} XorBitsCancels(n: nat, a: nat, b: nat)
    requires a < Pow2(n)
    ensures XorBits(n, XorBits(n, a, b), b) == a
  {
    if n > 0 {
      LowBit(a, b, XorBits(n - 1, a / 2, b / 2));
      XorBitsCancels(n - 1, a / 2, b / 2);
    }
  }

  function Xor(a: byte, b: byte): byte {
    assert Pow2(8) == 256 by { assert Pow2(4) == 16; }
    XorBits(8, a, b)
  }

  lemma XorCancels(a: byte, b: byte)
    ensures Xor(Xor(a, b), b) == a
  {
    assert Pow2(8) == 256 by { assert Pow2(4) == 16; }
    XorBitsCancels(8, a, b);
  }
}
