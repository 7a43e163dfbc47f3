/** Fixed-width integers in memory: the byte images that `memcpy` writes and reads back.
    Words are laid out least significant byte first. */
module Bytes {
  type byte = x: int | 0 <= x < 256

  /** 256 to the power n. */
  ghost function Pow256(n: nat): nat {
    if n == 0 then 1 else 256 * Pow256(n - 1)
  }

  function LittleEndian(x: nat, n: nat): (s: seq<byte>)
    ensures |s| == n
  {
    if n == 0 then [] else [(x % 256) as byte] + LittleEndian(x / 256, n - 1)
  }

  function FromLittleEndian(s: seq<byte>): nat {
    if s == [] then 0 else s[0] + 256 * FromLittleEndian(s[1..])
  }

  lemma {:induction false} LittleEndianRoundTrip(x: nat, n: nat)
    requires x < Pow256(n)
    ensures FromLittleEndian(LittleEndian(x, n)) == x
  {
    if n > 0 {
      LittleEndianRoundTrip(x / 256, n - 1);
      assert LittleEndian(x, n)[1..] == LittleEndian(x / 256, n - 1);
    }
  }

  lemma {:induction false} Widths()
    ensures Pow256(2) == 0x1_0000
    ensures Pow256(4) == 0x1_0000_0000
    ensures Pow256(8) == 0x1_0000_0000_0000_0000
  {
    assert Pow256(1) == 256;
    assert Pow256(3) == 256 * Pow256(2);
    assert Pow256(5) == 256 * Pow256(4);
    assert Pow256(6) == 256 * Pow256(5);
    assert Pow256(7) == 256 * Pow256(6);
  }

  type uint16 = x: int | 0 <= x < 0x1_0000
  type uint32 = x: int | 0 <= x < 0x1_0000_0000
  type int32 = x: int | -0x8000_0000 <= x < 0x8000_0000
  type int64 = x: int | -0x8000_0000_0000_0000 <= x < 0x8000_0000_0000_0000

  /** Two's complement, in n bytes, of a signed value. */
  function Signed32(x: int32): (s: seq<byte>)
    ensures |s| == 4
  {
    LittleEndian(if x < 0 then x + 0x1_0000_0000 else x, 4)
  }

  function Signed64(x: int64): (s: seq<byte>)
    ensures |s| == 8
  {
    LittleEndian(if x < 0 then x + 0x1_0000_0000_0000_0000 else x, 8)
  }

  function FromSigned32(s: seq<byte>): int {
    var u := FromLittleEndian(s);
    if u >= 0x8000_0000 then u - 0x1_0000_0000 else u
  }

  function FromSigned64(s: seq<byte>): int {
    var u := FromLittleEndian(s);
    if u >= 0x8000_0000_0000_0000 then u - 0x1_0000_0000_0000_0000 else u
  }

  lemma SignedRoundTrip(i: int32, x: int64)
    ensures FromSigned32(Signed32(i)) == i
    ensures FromSigned64(Signed64(x)) == x
  {
    Widths();
    LittleEndianRoundTrip(if i < 0 then i + 0x1_0000_0000 else i, 4);
    LittleEndianRoundTrip(if x < 0 then x + 0x1_0000_0000_0000_0000 else x, 8);
  }
}
