/** Bytes and little-endian integers. */
module Bytes {
  type Byte = b: int | 0 <= b < 256

  /** The four little-endian bytes of x modulo 2^32. */
  function Le4(x: int): (s: seq<Byte>)
    ensures |s| == 4
  {
    var u := x % 0x1_0000_0000;
    [u % 256, u / 0x100 % 256, u / 0x1_0000 % 256, u / 0x100_0000]
  }

  function FromLe4(s: seq<Byte>): (u: int)
    requires |s| == 4
    ensures 0 <= u < 0x1_0000_0000
  {
    var b1: int, b2: int, b3: int := s[1], s[2], s[3];
    s[0] + 0x100 * b1 + 0x1_0000 * b2 + 0x100_0000 * b3
  }

  function Le8(x: int): (s: seq<Byte>)
    ensures |s| == 8
  {
    Le4(x % 0x1_0000_0000) + Le4(x / 0x1_0000_0000)
  }

  function FromLe8(s: seq<Byte>): (u: int)
    requires |s| == 8
  {
    FromLe4(s[..4]) + FromLe4(s[4..]) * 0x1_0000_0000
  }

  /** The signed reading of a 32-bit field. */
  function Signed32(u: int): int {
    if u < 0x8000_0000 then u else u - 0x1_0000_0000
  }

  predicate FitsInt32(x: int) {
    -0x8000_0000 <= x <= 0x7FFF_FFFF
  }

  lemma Le4RoundTrip(x: int)
    ensures FromLe4(Le4(x)) == x % 0x1_0000_0000
  {
    var u := x % 0x1_0000_0000;
    assert u / 0x1_0000 == u / 0x100 / 0x100;
    assert u / 0x100_0000 == u / 0x1_0000 / 0x100;
  }

  lemma SignedRoundTrip(x: int)
    requires FitsInt32(x)
    ensures Signed32(FromLe4(Le4(x))) == x
  {
    Le4RoundTrip(x);
  }

  lemma Le8RoundTrip(x: int)
    requires 0 <= x < 0x1_0000_0000_0000_0000
    ensures FromLe8(Le8(x)) == x
  {
    Le4RoundTrip(x % 0x1_0000_0000);
    Le4RoundTrip(x / 0x1_0000_0000);
    assert Le8(x)[..4] == Le4(x % 0x1_0000_0000) && Le8(x)[4..] == Le4(x / 0x1_0000_0000);
  }

  /** The eight bytes, the lowest first. */
  lemma Le8Places(x: int)
    requires 0 <= x < 0x1_0000_0000_0000_0000
    ensures var s: seq<int> := Le8(x);
            x == s[0] + 0x100 * s[1] + 0x1_0000 * s[2] + 0x100_0000 * s[3] + 0x1_0000_0000 * s[4]
                 + 0x100_0000_0000 * s[5] + 0x1_0000_0000_0000 * s[6] + 0x100_0000_0000_0000 * s[7]
  {
    Le4RoundTrip(x % 0x1_0000_0000);
    Le4RoundTrip(x / 0x1_0000_0000);
  }
}
