/** The bytes on the wire, field by field: little-endian, at the offsets the
    binary monitor protocol gives them. */
module Wire {
  import opened Wrappers
  import opened Bytes
  import opened Protocol
  import opened Vice

  /** Two or four bytes that spell a number, the lowest first. */
  predicate Word16(b: seq<byte>, off: nat, v: int) {
    && off + 2 <= |b|
    && var b0: int, b1: int := b[off], b[off + 1];
    v == b0 + 0x100 * b1
  }

  predicate Word32(b: seq<byte>, off: nat, v: int) {
    && off + 4 <= |b|
    && var b0: int, b1: int, b2: int, b3: int := b[off], b[off + 1], b[off + 2], b[off + 3];
    v == b0 + 0x100 * b1 + 0x1_0000 * b2 + 0x100_0000 * b3
  }

  predicate Truth(b: seq<byte>, off: nat, v: bool) {
    off < |b| && b[off] == if v then 1 else 0
  }

  lemma Le16Spells(pre: seq<byte>, v: u16, post: seq<byte>)
    ensures Word16(pre + Le16(v) + post, |pre|, v)
  {
    var b := pre + Le16(v) + post;
    assert b[|pre|] == v % 0x100 && b[|pre| + 1] == v / 0x100;
  }

  lemma Le32Spells(pre: seq<byte>, v: u32, post: seq<byte>)
    ensures Word32(pre + Le32(v) + post, |pre|, v)
  {
    var b := pre + Le32(v) + post;
    assert b[|pre|] == v % 0x100 && b[|pre| + 1] == v / 0x100 % 0x100;
    assert b[|pre| + 2] == v / 0x1_0000 % 0x100 && b[|pre| + 3] == v / 0x100_0000;
    Le32Digits(v);
  }

  /** What Get16 and Get32 read. */
  lemma GetReads(b: seq<byte>, off: nat)
    ensures off + 2 <= |b| ==> Word16(b, off, Get16(b, off))
    ensures off + 4 <= |b| ==> Word32(b, off, Get32(b, off))
  {
  }

  /** A response frame: start byte 2, API version 2, the length of the body, the
      type, the error code, the request number, and the body. */
  lemma FrameLayout(f: Response)
    requires f.Encodable()
    ensures var b := Encode(f);
            && |b| == 12 + |f.body| && b[0] == 2 && b[1] == 2 && Word32(b, 2, |f.body|)
            && b[6] == f.responseType && b[7] == f.errorCode && Word32(b, 8, f.requestId) && b[12..] == f.body
  {
    var b := Encode(f);
    var head, mid := [STX, API_VERSION], [f.responseType, f.errorCode];
    assert b == head + Le32(|f.body|) + (mid + Le32(f.requestId) + f.body);
    Le32Spells(head, |f.body|, mid + Le32(f.requestId) + f.body);
    assert b == (head + Le32(|f.body|) + mid) + Le32(f.requestId) + f.body;
    Le32Spells(head + Le32(|f.body|) + mid, f.requestId, f.body);
  }

  /** The 23 bytes of a checkpoint record. */
  lemma CheckpointLayout(c: Checkpoint)
    ensures var b := CheckpointBody(c);
            && |b| == 23 && Word32(b, 0, c.number) && Truth(b, 4, c.hit) && Word16(b, 5, c.start) && Word16(b, 7, c.end)
            && Truth(b, 9, c.stop) && Truth(b, 10, c.enabled) && b[11] == c.op && Truth(b, 12, c.temporary)
            && Word32(b, 13, c.hitCount) && Word32(b, 17, c.ignoreCount) && Truth(b, 21, c.hasCondition)
            && b[22] == c.memspace
  {
    var b := CheckpointBody(c);
    Le32Digits(c.number);
    Le32Digits(c.hitCount);
    Le32Digits(c.ignoreCount);
    assert b[0..4] == Le32(c.number) && b[13..17] == Le32(c.hitCount) && b[17..21] == Le32(c.ignoreCount);
    assert b[5..7] == Le16(c.start) && b[7..9] == Le16(c.end);
  }

  /** The 8 bytes that set a checkpoint. */
  lemma CheckpointSetLayout(start: u16, end: u16, stop: bool, enabled: bool, op: byte, temporary: bool)
    ensures var b := SetBody(start, end, stop, enabled, op, temporary);
            && |b| == 8 && Word16(b, 0, start) && Word16(b, 2, end)
            && Truth(b, 4, stop) && Truth(b, 5, enabled) && b[6] == op && Truth(b, 7, temporary)
  {
    var b := SetBody(start, end, stop, enabled, op, temporary);
    assert b[0..2] == Le16(start) && b[2..4] == Le16(end);
  }

  /** Writing memory: no side effects, first and last address, the main memory
      space and bank 0, and the data. */
  lemma MemorySetLayout(start: u16, data: seq<byte>)
    requires data != [] && start + |data| <= 0x1_0000
    ensures var b := MemorySetBody(start, data);
            && |b| == 8 + |data| && b[0] == 0 && Word16(b, 1, start) && Word16(b, 3, start + |data| - 1)
            && b[5] == 0 && Word16(b, 6, 0) && b[8..] == data
  {
    var b := MemorySetBody(start, data);
    assert b[1..3] == Le16(start) && b[3..5] == Le16(start + |data| - 1) && b[6..8] == Le16(0);
  }

  /** A list of registers: their number, then for each its item size 3, its id
      and its value. */
  lemma {:induction false} RegistersLayout(regs: seq<(byte, u16)>, k: nat)
    requires |regs| < 0x1_0000 && k < |regs|
    ensures var b := RegistersBody(regs);
            && |b| == 2 + 4 * |regs| && Word16(b, 0, |regs|)
            && b[2 + 4 * k] == 3 && b[3 + 4 * k] == regs[k].0 && Word16(b, 4 + 4 * k, regs[k].1)
  {
    var b := RegistersBody(regs);
    assert b == [] + Le16(|regs|) + RegisterItems(regs);
    Le16Spells([], |regs|, RegisterItems(regs));
    ItemAt(regs, k);
    var items := RegisterItems(regs);
    assert b[2..] == items && forall i | 0 <= i < |items| :: b[2 + i] == items[i];
  }

  lemma {:induction false} ItemAt(regs: seq<(byte, u16)>, k: nat)
    requires k < |regs|
    ensures var items := RegisterItems(regs);
            && |items| == 4 * |regs| && items[4 * k] == 3 && items[4 * k + 1] == regs[k].0
            && Word16(items, 4 * k + 2, regs[k].1)
  {
    var first, rest := [3, regs[0].0] + Le16(regs[0].1), RegisterItems(regs[1..]);
    assert RegisterItems(regs) == first + rest;
    RegisterItemsSize(regs);
    hide RegisterItems;
    if k == 0 {
      Le16Spells([3, regs[0].0], regs[0].1, rest);
    } else {
      ItemAt(regs[1..], k - 1);
      hide Le16;
      var at := 4 * (k - 1);
      assert (first + rest)[4 + at] == rest[at] && (first + rest)[5 + at] == rest[at + 1];
      assert (first + rest)[6 + at] == rest[at + 2] && (first + rest)[7 + at] == rest[at + 3];
    }
  }
}
