/** Fixed-width unsigned integers and their little-endian byte form. */
module Bytes {

  type byte = x: int | 0 <= x < 0x100
  type u16 = x: int | 0 <= x < 0x1_0000
  type u32 = x: int | 0 <= x < 0x1_0000_0000

  function Le16(v: u16): (b: seq<byte>)
    ensures |b| == 2
  {
    [v % 0x100, v / 0x100]
  }

  function Le32(v: u32): (b: seq<byte>)
    ensures |b| == 4
  {
    [v % 0x100, v / 0x100 % 0x100, v / 0x1_0000 % 0x100, v / 0x100_0000]
  }

  function Get16(b: seq<byte>, off: nat): u16
    requires off + 2 <= |b|
  {
    var lo: int, hi: int := b[off], b[off + 1];
    lo + 0x100 * hi
  }

  function Get32(b: seq<byte>, off: nat): u32
    requires off + 4 <= |b|
  {
    var b0: int, b1: int, b2: int, b3: int := b[off], b[off + 1], b[off + 2], b[off + 3];
    b0 + 0x100 * b1 + 0x1_0000 * b2 + 0x100_0000 * b3
  }

  lemma Get16OfLe16(v: u16, pre: seq<byte>, post: seq<byte>)
    ensures Get16(pre + Le16(v) + post, |pre|) == v
  {
    var b := pre + Le16(v) + post;
    assert b[|pre|] == v % 0x100 && b[|pre| + 1] == v / 0x100;
  }

  lemma Get32OfLe32(v: u32, pre: seq<byte>, post: seq<byte>)
    ensures Get32(pre + Le32(v) + post, |pre|) == v
  {
    var b := pre + Le32(v) + post;
    assert b[|pre|] == v % 0x100;
    assert b[|pre| + 1] == v / 0x100 % 0x100;
    assert b[|pre| + 2] == v / 0x1_0000 % 0x100;
    assert b[|pre| + 3] == v / 0x100_0000;
    Le32Digits(v);
  }

  lemma Le32Digits(v: u32)
    ensures v % 0x100 + 0x100 * (v / 0x100 % 0x100) + 0x1_0000 * (v / 0x1_0000 % 0x100)
            + 0x100_0000 * (v / 0x100_0000) == v
  {
    var a, b := v / 0x100, v / 0x1_0000;
    assert a / 0x100 == b;
    assert b / 0x100 == v / 0x100_0000;
    assert v == 0x100 * a + v % 0x100;
    assert a == 0x100 * b + a % 0x100;
    assert b == 0x100 * (v / 0x100_0000) + b % 0x100;
  }
}
