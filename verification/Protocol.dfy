/** The VICE binary monitor wire format, API version 2: response frames, the
    incremental frame decoder, and the bodies the daemon reads. */
module Protocol {
  import opened Wrappers
  import opened Bytes

  const STX: byte := 0x02
  const API_VERSION: byte := 0x02
  const EVENT_REQUEST_ID: u32 := 0xFFFF_FFFF
  const HEADER_SIZE := 12

  const MEMORY_SET: byte := 0x02
  const CHECKPOINT_GET: byte := 0x11
  const CHECKPOINT_SET: byte := 0x12
  const CHECKPOINT_DELETE: byte := 0x13
  const CHECKPOINT_LIST: byte := 0x14
  const REGISTERS_GET: byte := 0x31
  const REGISTERS_SET: byte := 0x32
  const ADVANCE_INSTRUCTIONS: byte := 0x71
  const EXECUTE_UNTIL_RETURN: byte := 0x73
  const EXIT: byte := 0xAA
  const QUIT: byte := 0xBB

  const STOPPED: byte := 0x62
  const RESUMED: byte := 0x63

  const OK: byte := 0x00
  const OBJECT_MISSING: byte := 0x01
  const INVALID_LENGTH: byte := 0x80
  const GENERAL_FAILURE: byte := 0x8F

  const CP_EXEC: byte := 0x04

  datatype Response = Response(responseType: byte, errorCode: byte, requestId: u32, body: seq<byte>) {
    predicate IsEvent() {
      requestId == EVENT_REQUEST_ID
    }

    /** The length field of the header is 32 bits wide. */
    predicate Encodable() {
      |body| < 0x1_0000_0000
    }
  }

  lemma ConcatAssoc<T>(a: seq<T>, b: seq<T>, c: seq<T>)
    ensures a + (b + c) == (a + b) + c
  {
  }

  // ---------- encoding (VICE's side of the wire) ----------

  function EncodeHeader(f: Response): (h: seq<byte>)
    requires f.Encodable()
    ensures |h| == HEADER_SIZE
  {
    [STX, API_VERSION] + Le32(|f.body|) + [f.responseType, f.errorCode] + Le32(f.requestId)
  }

  function Encode(f: Response): (b: seq<byte>)
    requires f.Encodable()
    ensures |b| == HEADER_SIZE + |f.body|
  {
    EncodeHeader(f) + f.body
  }

  predicate AllEncodable(frames: seq<Response>) {
    forall f | f in frames :: f.Encodable()
  }

  function EncodeAll(frames: seq<Response>): seq<byte>
    requires AllEncodable(frames)
  {
    if frames == [] then [] else Encode(frames[0]) + EncodeAll(frames[1..])
  }

  lemma {:induction false} EncodeAllAppend(a: seq<Response>, b: seq<Response>)
    requires AllEncodable(a) && AllEncodable(b)
    ensures EncodeAll(a + b) == EncodeAll(a) + EncodeAll(b)
  {
    if a == [] {
      assert a + b == b;
    } else {
      assert (a + b)[1..] == a[1..] + b;
      EncodeAllAppend(a[1..], b);
    }
  }

  // ---------- decoding ----------

  /** What the front of a receive buffer holds. */
  datatype Head = NeedMore | BadStart | Got(frame: Response, size: nat)

  function ParseHead(buf: seq<byte>): (h: Head)
    ensures h.Got? ==> HEADER_SIZE <= h.size <= |buf|
  {
    if |buf| < HEADER_SIZE then NeedMore
    else if buf[0] != STX then BadStart
    else
      var total := HEADER_SIZE + Get32(buf, 2);
      if |buf| < total then NeedMore
      else Got(Response(buf[6], buf[7], Get32(buf, 8), buf[HEADER_SIZE..total]), total)
  }

  /** Frames taken off a buffer, the bytes left over, and whether decoding
      stopped at a byte that is not a frame start. */
  datatype Decoded = Decoded(frames: seq<Response>, rest: seq<byte>, bad: bool)

  function Decode(buf: seq<byte>): Decoded
    decreases |buf|
  {
    match ParseHead(buf)
    case NeedMore => Decoded([], buf, false)
    case BadStart => Decoded([], buf, true)
    case Got(f, n) =>
      var d := Decode(buf[n..]);
      Decoded([f] + d.frames, d.rest, d.bad)
  }

  /** What the head of the buffer means for decoding all of it. */
  lemma DecodeHead(b: seq<byte>)
    ensures |b| < HEADER_SIZE ==> Decode(b) == Decoded([], b, false)
    ensures |b| >= HEADER_SIZE && b[0] != STX ==> Decode(b) == Decoded([], b, true)
    ensures |b| >= HEADER_SIZE && b[0] == STX ==>
              var total := HEADER_SIZE + Get32(b, 2);
              if |b| < total then Decode(b) == Decoded([], b, false)
              else
                var frame, d := Response(b[6], b[7], Get32(b, 8), b[HEADER_SIZE..total]), Decode(b[total..]);
                Decode(b) == Decoded([frame] + d.frames, d.rest, d.bad)
  {
    hide Get32;
    match ParseHead(b)
    case NeedMore =>
    case BadStart =>
    case Got(f, n) =>
      var d := Decode(b[n..]);
      assert Decode(b) == Decoded([f] + d.frames, d.rest, d.bad);
      hide Decode;
  }

  class FrameDecoder {
    var buf: seq<byte>

    constructor ()
      ensures buf == []
    {
      buf := [];
    }

    /** Adds received bytes and returns every frame completed by them. */
    method Feed(data: seq<byte>) returns (r: Result<seq<Response>, ()>)
      modifies this
      ensures var d := Decode(old(buf) + data);
              && buf == d.rest
              && r == if d.bad then Failure(()) else Success(d.frames)
    {
      hide Decode, ParseHead, Get32, Fed;
      buf := buf + data;
      ghost var all := buf;
      var out: seq<Response> := [];
      FedNothing(all);
      while |buf| >= HEADER_SIZE
        invariant Fed(all, out, buf)
        decreases |buf|
      {
        FedHead(all, out, buf);
        if buf[0] != STX {
          return Failure(());
        }
        var total := HEADER_SIZE + Get32(buf, 2);
        if |buf| < total {
          return Success(out);
        }
        out := out + [Response(buf[6], buf[7], Get32(buf, 8), buf[HEADER_SIZE..total])];
        buf := buf[total..];
      }
      FedHead(all, out, buf);
      return Success(out);
    }
  }

  /** The frames taken off so far, followed by decoding the rest, decode all. */
  ghost predicate Fed(all: seq<byte>, out: seq<Response>, buf: seq<byte>) {
    var d := Decode(buf);
    Decode(all) == Decoded(out + d.frames, d.rest, d.bad)
  }

  lemma FedNothing(all: seq<byte>)
    ensures Fed(all, [], all)
  {
    assert [] + Decode(all).frames == Decode(all).frames;
  }

  lemma FedHead(all: seq<byte>, out: seq<Response>, buf: seq<byte>)
    requires Fed(all, out, buf)
    ensures |buf| < HEADER_SIZE ==> Decode(all) == Decoded(out, buf, false)
    ensures |buf| >= HEADER_SIZE && buf[0] != STX ==> Decode(all) == Decoded(out, buf, true)
    ensures |buf| >= HEADER_SIZE && buf[0] == STX ==>
              var total := HEADER_SIZE + Get32(buf, 2);
              if |buf| < total then Decode(all) == Decoded(out, buf, false)
              else Fed(all, out + [Response(buf[6], buf[7], Get32(buf, 8), buf[HEADER_SIZE..total])], buf[total..])
  {
    hide Decode, Get32, ParseHead;
    DecodeHead(buf);
    assert out + [] == out;
    if |buf| >= HEADER_SIZE && buf[0] == STX && |buf| >= HEADER_SIZE + Get32(buf, 2) {
      var total := HEADER_SIZE + Get32(buf, 2);
      var frame, d := Response(buf[6], buf[7], Get32(buf, 8), buf[HEADER_SIZE..total]), Decode(buf[total..]);
      assert out + ([frame] + d.frames) == (out + [frame]) + d.frames;
    }
  }

  // ---------- chunking does not matter ----------

  lemma HeadAppend(a: seq<byte>, b: seq<byte>)
    ensures !ParseHead(a).NeedMore? ==> ParseHead(a + b) == ParseHead(a)
  {
    if |a| >= HEADER_SIZE && a[0] == STX {
      var total := HEADER_SIZE + Get32(a, 2);
      assert Get32(a + b, 2) == Get32(a, 2) && Get32(a + b, 8) == Get32(a, 8);
      if total <= |a| {
        assert (a + b)[HEADER_SIZE..total] == a[HEADER_SIZE..total];
      }
    }
  }

  lemma {:induction false} DecodeAppend(a: seq<byte>, b: seq<byte>)
    ensures var d := Decode(a);
            if d.bad then Decode(a + b) == Decoded(d.frames, d.rest + b, true)
            else var e := Decode(d.rest + b); Decode(a + b) == Decoded(d.frames + e.frames, e.rest, e.bad)
    decreases |a|
  {
    HeadAppend(a, b);
    var whole := a + b;
    match ParseHead(a)
    case NeedMore =>
      var e := Decode(whole);
      assert [] + e.frames == e.frames;
    case BadStart =>
    case Got(f, n) =>
      assert whole[n..] == a[n..] + b;
      DecodeAppend(a[n..], b);
      var d, w := Decode(a[n..]), Decode(whole[n..]);
      if !d.bad {
        var e := Decode(d.rest + b);
        ConcatAssoc([f], d.frames, e.frames);
      }
  }

  function Flatten(chunks: seq<seq<byte>>): seq<byte> {
    if chunks == [] then [] else chunks[0] + Flatten(chunks[1..])
  }

  /** Feeding the chunks one after another, as FrameDecoder.Feed does: the
      frames handed out in total and the buffer left behind. */
  function FeedAll(buf: seq<byte>, chunks: seq<seq<byte>>): Decoded
    decreases chunks
  {
    if chunks == [] then Decoded([], buf, false)
    else
      var d := Decode(buf + chunks[0]);
      if d.bad then d
      else
        var e := FeedAll(d.rest, chunks[1..]);
        Decoded(d.frames + e.frames, e.rest, e.bad)
  }

  /** What is left after decoding holds no complete frame. */
  lemma {:induction false} DecodeRestIsShort(buf: seq<byte>)
    ensures var d := Decode(buf); !d.bad ==> Decode(d.rest) == Decoded([], d.rest, false)
    decreases |buf|
  {
    match ParseHead(buf)
    case NeedMore =>
    case BadStart =>
    case Got(f, n) => DecodeRestIsShort(buf[n..]);
  }

  /** Any split of a stream into feeds hands out the frames and leaves the
      bytes that one feed of the whole stream would; a bad start byte is
      reported under every split or under none. */
  lemma {:induction false} ChunkingIsInvisible(buf: seq<byte>, chunks: seq<seq<byte>>)
    requires Decode(buf) == Decoded([], buf, false)
    ensures FeedAll(buf, chunks).bad <==> Decode(buf + Flatten(chunks)).bad
    ensures !Decode(buf + Flatten(chunks)).bad ==> FeedAll(buf, chunks) == Decode(buf + Flatten(chunks))
    decreases chunks
  {
    if chunks == [] {
      assert buf + Flatten(chunks) == buf;
    } else {
      var rest := Flatten(chunks[1..]);
      assert buf + Flatten(chunks) == (buf + chunks[0]) + rest;
      DecodeAppend(buf + chunks[0], rest);
      var d := Decode(buf + chunks[0]);
      if !d.bad {
        DecodeRestIsShort(buf + chunks[0]);
        ChunkingIsInvisible(d.rest, chunks[1..]);
      }
    }
  }

  // ---------- decoding undoes encoding ----------

  lemma HeadOfEncoded(f: Response, tail: seq<byte>)
    requires f.Encodable()
    ensures ParseHead(Encode(f) + tail) == Got(f, HEADER_SIZE + |f.body|)
  {
    var b := Encode(f) + tail;
    assert b == [STX, API_VERSION] + Le32(|f.body|)
           + ([f.responseType, f.errorCode] + Le32(f.requestId) + f.body + tail);
    Get32OfLe32(|f.body|, [STX, API_VERSION], [f.responseType, f.errorCode] + Le32(f.requestId) + f.body + tail);
    var pre := [STX, API_VERSION] + Le32(|f.body|) + [f.responseType, f.errorCode];
    assert b == pre + Le32(f.requestId) + (f.body + tail);
    Get32OfLe32(f.requestId, pre, f.body + tail);
    assert b[HEADER_SIZE..HEADER_SIZE + |f.body|] == f.body;
  }

  /** Decoding the concatenation of encoded frames gives back exactly those
      frames, whatever incomplete bytes follow them. */
  lemma {:induction false} DecodeOfEncodeAll(frames: seq<Response>, tail: seq<byte>)
    requires AllEncodable(frames) && ParseHead(tail).NeedMore?
    ensures Decode(EncodeAll(frames) + tail) == Decoded(frames, tail, false)
  {
    if frames == [] {
      assert EncodeAll(frames) + tail == tail;
    } else {
      var f, more := frames[0], EncodeAll(frames[1..]) + tail;
      assert EncodeAll(frames) + tail == Encode(f) + more;
      HeadOfEncoded(f, more);
      assert (Encode(f) + more)[|Encode(f)|..] == more;
      DecodeOfEncodeAll(frames[1..], tail);
    }
  }

  /** However a stream of encoded frames is cut, the front part decodes to a
      prefix of the frames, and what stays in the buffer together with what is
      still on the wire encodes the others. */
  lemma {:induction false} DecodeOfPrefix(front: seq<byte>, back: seq<byte>, frames: seq<Response>)
    requires AllEncodable(frames) && front + back == EncodeAll(frames)
    ensures var d := Decode(front);
            && !d.bad
            && d.frames <= frames
            && d.rest + back == EncodeAll(frames[|d.frames|..])
    decreases |frames|
  {
    if frames == [] {
      assert frames[0..] == frames && front == [];
    } else {
      var f := frames[0];
      var tail := EncodeAll(frames[1..]);
      var n := |Encode(f)|;
      assert front + back == Encode(f) + tail && n >= HEADER_SIZE;
      HeadOfEncoded(f, tail);
      HeadOfPrefix(front, back, f, n);
      assert frames[0..] == frames && frames == [f] + frames[1..];
      hide ParseHead, Encode, Response.Encodable;
      if |front| >= n {
        assert front[n..] + back == (front + back)[n..] == tail;
        DecodeOfPrefix(front[n..], back, frames[1..]);
        var d := Decode(front[n..]);
        assert frames[1..][|d.frames|..] == frames[1 + |d.frames|..];
      }
    }
  }

  /** A frame at the head is read from any prefix that holds all of it, and
      from a shorter one nothing is. */
  lemma HeadOfPrefix(front: seq<byte>, back: seq<byte>, f: Response, n: nat)
    requires ParseHead(front + back) == Got(f, n)
    ensures if |front| < n then ParseHead(front).NeedMore? else ParseHead(front) == Got(f, n)
  {
    if |front| >= HEADER_SIZE {
      assert front[..HEADER_SIZE] == (front + back)[..HEADER_SIZE];
      assert Get32(front, 2) == Get32(front + back, 2) && Get32(front, 8) == Get32(front + back, 8);
      if |front| >= n {
        assert front[HEADER_SIZE..n] == (front + back)[HEADER_SIZE..n];
      }
    }
  }

  // ---------- checkpoint information ----------

  datatype Checkpoint = Checkpoint(number: u32, hit: bool, start: u16, end: u16, stop: bool, enabled: bool,
                                   op: byte, temporary: bool, hitCount: u32, ignoreCount: u32,
                                   hasCondition: bool, memspace: byte)

  const CHECKPOINT_INFO_SIZE := 23

  function Flag(b: bool): byte {
    if b then 1 else 0
  }

  function CheckpointBody(c: Checkpoint): (b: seq<byte>)
    ensures |b| == CHECKPOINT_INFO_SIZE
  {
    Le32(c.number) + [Flag(c.hit)] + Le16(c.start) + Le16(c.end)
      + [Flag(c.stop), Flag(c.enabled), c.op, Flag(c.temporary)]
    + Le32(c.hitCount) + Le32(c.ignoreCount) + [Flag(c.hasCondition), c.memspace]
  }

  /** Struct unpacking fails on a short body. */
  function ParseCheckpoint(b: seq<byte>): Option<Checkpoint> {
    if |b| < CHECKPOINT_INFO_SIZE then None
    else Some(Checkpoint(Get32(b, 0), b[4] != 0, Get16(b, 5), Get16(b, 7), b[9] != 0, b[10] != 0, b[11], b[12] != 0,
                         Get32(b, 13), Get32(b, 17), b[21] != 0, b[22]))
  }

  lemma CheckpointRoundTrip(c: Checkpoint)
    ensures ParseCheckpoint(CheckpointBody(c)) == Some(c)
  {
    var b := CheckpointBody(c);
    Le32Digits(c.number);
    Le32Digits(c.hitCount);
    Le32Digits(c.ignoreCount);
    assert b[0..4] == Le32(c.number) && b[13..17] == Le32(c.hitCount) && b[17..21] == Le32(c.ignoreCount);
    assert b[5..7] == Le16(c.start) && b[7..9] == Le16(c.end);
    assert Get32(b, 0) == c.number && Get32(b, 13) == c.hitCount && Get32(b, 17) == c.ignoreCount;
  }

  // ---------- register lists ----------

  /** One register item: its size byte (3), its id and its 16-bit value. */
  function RegisterItems(regs: seq<(byte, u16)>): seq<byte> {
    if regs == [] then [] else [3, regs[0].0] + Le16(regs[0].1) + RegisterItems(regs[1..])
  }

  function RegistersBody(regs: seq<(byte, u16)>): seq<byte>
    requires |regs| < 0x1_0000
  {
    Le16(|regs|) + RegisterItems(regs)
  }

  function RegistersSetBody(regs: seq<(byte, u16)>, memspace: byte): seq<byte>
    requires |regs| < 0x1_0000
  {
    [memspace] + RegistersBody(regs)
  }

  /** The register file a list of items describes: a later item wins. */
  function RegisterFile(regs: seq<(byte, u16)>, base: map<byte, u16>): map<byte, u16> {
    if regs == [] then base else RegisterFile(regs[1..], base[regs[0].0 := regs[0].1])
  }

  function ParseItems(b: seq<byte>, off: nat, count: nat, out: map<byte, u16>): Option<map<byte, u16>>
    decreases count
  {
    if count == 0 then Some(out)
    else if off + 4 > |b| then None
    else ParseItems(b, off + 1 + b[off], count - 1, out[b[off + 1] := Get16(b, off + 2)])
  }

  function RegistersOf(b: seq<byte>): Option<map<byte, u16>> {
    if |b| < 2 then None else ParseItems(b, 2, Get16(b, 0), map[])
  }

  /** Reads a REGISTERS_GET body item by item; None when it is too short. */
  method ParseRegistersGet(b: seq<byte>) returns (r: Option<map<byte, u16>>)
    ensures r == RegistersOf(b)
  {
    if |b| < 2 {
      return None;
    }
    var out: map<byte, u16> := map[];
    var off: nat := 2;
    for k := 0 to Get16(b, 0)
      invariant ParseItems(b, off, Get16(b, 0) - k, out) == RegistersOf(b)
    {
      if off + 4 > |b| {
        return None;
      }
      var itemSize: int := b[off];
      out := out[b[off + 1] := Get16(b, off + 2)];
      off := off + 1 + itemSize;
    }
    return Some(out);
  }

  lemma {:induction false} ParseItemsOfItems(regs: seq<(byte, u16)>, pre: seq<byte>, out: map<byte, u16>)
    ensures ParseItems(pre + RegisterItems(regs), |pre|, |regs|, out) == Some(RegisterFile(regs, out))
    decreases |regs|
  {
    if regs != [] {
      var (id, value) := regs[0];
      var b := pre + RegisterItems(regs);
      var item := [3, id] + Le16(value);
      assert b == (pre + [3, id]) + Le16(value) + RegisterItems(regs[1..]);
      Get16OfLe16(value, pre + [3, id], RegisterItems(regs[1..]));
      assert b[|pre|] == 3 && b[|pre| + 1] == id;
      assert b == (pre + item) + RegisterItems(regs[1..]);
      ParseItemsOfItems(regs[1..], pre + item, out[id := value]);
    }
  }

  /** Items as long as their size byte says, whatever follows the value. */
  function LongItems(regs: seq<(byte, u16)>, extras: seq<seq<byte>>): seq<byte>
    requires |extras| == |regs| && forall e | e in extras :: |e| <= 252
  {
    if regs == [] then []
    else [3 + |extras[0]|, regs[0].0] + Le16(regs[0].1) + extras[0] + LongItems(regs[1..], extras[1..])
  }

  /** An item is stepped over by its own size, so longer items read the same. */
  lemma {:induction false} LongItemsRead(regs: seq<(byte, u16)>, extras: seq<seq<byte>>, pre: seq<byte>,
                                         out: map<byte, u16>)
    requires |extras| == |regs| && forall e | e in extras :: |e| <= 252
    ensures ParseItems(pre + LongItems(regs, extras), |pre|, |regs|, out) == Some(RegisterFile(regs, out))
    decreases |regs|
  {
    if regs != [] {
      var (id, value) := regs[0];
      var more, item := LongItems(regs[1..], extras[1..]), [3 + |extras[0]|, id] + Le16(value) + extras[0];
      assert pre + LongItems(regs, extras) == pre + item + more;
      LongItemsRead(regs[1..], extras[1..], pre + item, out[id := value]);
      hide Get16, Le16, LongItems, ParseItems;
      OneLongItem(regs[0], extras[0], pre, more, |regs| - 1, out);
    }
  }

  lemma OneLongItem(reg: (byte, u16), extra: seq<byte>, pre: seq<byte>, more: seq<byte>, count: nat,
                    out: map<byte, u16>)
    requires |extra| <= 252
    ensures var item := [3 + |extra|, reg.0] + Le16(reg.1) + extra;
            var b := pre + item + more;
            ParseItems(b, |pre|, count + 1, out) == ParseItems(b, |pre + item|, count, out[reg.0 := reg.1])
  {
    var size: byte := 3 + |extra|;
    var item := [size, reg.0] + Le16(reg.1) + extra;
    var b := pre + item + more;
    assert b == (pre + [size, reg.0]) + Le16(reg.1) + (extra + more);
    Get16OfLe16(reg.1, pre + [size, reg.0], extra + more);
    assert b[|pre|] == size && b[|pre| + 1] == reg.0 && |pre| + 1 + size == |pre + item|;
    hide Get16, Le16;
  }

  /** Reading back what registers_set_body wrote gives the same registers. */
  lemma RegistersRoundTrip(regs: seq<(byte, u16)>, memspace: byte)
    requires |regs| < 0x1_0000
    ensures RegistersOf(RegistersSetBody(regs, memspace)[1..]) == Some(RegisterFile(regs, map[]))
  {
    var b := RegistersBody(regs);
    assert RegistersSetBody(regs, memspace)[1..] == b;
    assert b == [] + Le16(|regs|) + RegisterItems(regs);
    Get16OfLe16(|regs|, [], RegisterItems(regs));
    hide Get16, Le16, ParseItems, RegisterItems, RegisterFile;
    ParseItemsOfItems(regs, Le16(|regs|), map[]);
  }
}
