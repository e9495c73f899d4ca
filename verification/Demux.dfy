/** Picking one command's answer out of a stream that mixes replies to several
    commands with unsolicited events. */
module Demux {
  import opened Wrappers
  import opened Bytes
  import opened Protocol
  import opened Vice

  // ---------- filters ----------

  function EventsOf(frames: seq<Response>): seq<Response> {
    if frames == [] then []
    else if frames[0].IsEvent() then [frames[0]] + EventsOf(frames[1..]) else EventsOf(frames[1..])
  }

  function RepliesOf(frames: seq<Response>): seq<Response> {
    if frames == [] then []
    else if frames[0].IsEvent() then RepliesOf(frames[1..]) else [frames[0]] + RepliesOf(frames[1..])
  }

  function Own(frames: seq<Response>, rid: u32): seq<Response> {
    if frames == [] then []
    else if frames[0].requestId == rid then [frames[0]] + Own(frames[1..], rid) else Own(frames[1..], rid)
  }

  /** The frames of other requests. */
  function Others(frames: seq<Response>, rid: u32): seq<Response> {
    if frames == [] then []
    else if frames[0].requestId != rid then [frames[0]] + Others(frames[1..], rid) else Others(frames[1..], rid)
  }

  lemma {:induction false} EventsOfAppend(a: seq<Response>, b: seq<Response>)
    ensures EventsOf(a + b) == EventsOf(a) + EventsOf(b)
  {
    if a == [] {
      assert a + b == b;
    } else {
      assert (a + b)[1..] == a[1..] + b;
      EventsOfAppend(a[1..], b);
    }
  }

  lemma {:induction false} RepliesOfAppend(a: seq<Response>, b: seq<Response>)
    ensures RepliesOf(a + b) == RepliesOf(a) + RepliesOf(b)
  {
    if a == [] {
      assert a + b == b;
    } else {
      assert (a + b)[1..] == a[1..] + b;
      RepliesOfAppend(a[1..], b);
    }
  }

  lemma {:induction false} OwnAppend(a: seq<Response>, b: seq<Response>, rid: u32)
    ensures Own(a + b, rid) == Own(a, rid) + Own(b, rid)
  {
    if a == [] {
      assert a + b == b;
    } else {
      assert (a + b)[1..] == a[1..] + b;
      OwnAppend(a[1..], b, rid);
    }
  }

  /** With their additivity this settles the filters: they keep exactly the
      frames they are for, in order. */
  lemma FilterOne(f: Response, rid: u32)
    ensures EventsOf([f]) == if f.requestId == 0xFFFF_FFFF then [f] else []
    ensures RepliesOf([f]) == if f.requestId == 0xFFFF_FFFF then [] else [f]
    ensures Own([f], rid) == if f.requestId == rid then [f] else []
    ensures Others([f], rid) == if f.requestId == rid then [] else [f]
  {
    assert [f][1..] == [];
  }

  lemma FilterStep(frames: seq<Response>, k: nat)
    requires k < |frames|
    ensures EventsOf(frames[..k + 1]) == EventsOf(frames[..k]) + (if frames[k].IsEvent() then [frames[k]] else [])
    ensures RepliesOf(frames[..k + 1]) == RepliesOf(frames[..k]) + (if frames[k].IsEvent() then [] else [frames[k]])
  {
    assert frames[..k + 1] == frames[..k] + [frames[k]];
    EventsOfAppend(frames[..k], [frames[k]]);
    RepliesOfAppend(frames[..k], [frames[k]]);
  }

  lemma EventsOfMembers(frames: seq<Response>)
    ensures forall f :: f in EventsOf(frames) <==> f in frames && f.IsEvent()
    ensures forall f :: f in RepliesOf(frames) <==> f in frames && !f.IsEvent()
  {
  }

  lemma OwnMembers(frames: seq<Response>, rid: u32)
    ensures forall f :: f in Own(frames, rid) <==> f in frames && f.requestId == rid
  {
  }

  lemma OwnOfNone(frames: seq<Response>, rid: u32)
    requires forall f | f in frames :: f.requestId != rid
    ensures Own(frames, rid) == []
  {
  }

  lemma OwnOfAll(frames: seq<Response>, rid: u32)
    requires forall f | f in frames :: f.requestId == rid
    ensures Own(frames, rid) == frames
  {
  }

  lemma OwnOfReplies(frames: seq<Response>, rid: u32)
    requires rid != EVENT_REQUEST_ID
    ensures Own(RepliesOf(frames), rid) == Own(frames, rid)
  {
    if frames != [] {
      OwnOfReplies(frames[1..], rid);
      if !frames[0].IsEvent() {
        assert RepliesOf(frames)[1..] == RepliesOf(frames[1..]);
      }
    }
  }

  lemma HitsOfEvents(frames: seq<Response>, n: u32)
    ensures Hits(EventsOf(frames), n) == Hits(frames, n)
  {
    if frames != [] {
      HitsOfEvents(frames[1..], n);
      if frames[0].IsEvent() {
        assert EventsOf(frames)[1..] == EventsOf(frames[1..]);
      }
    }
  }

  // ---------- the bounded event queue ----------

  const EVENT_CAP := 256

  /** A deque of bounded length keeps the newest entries. */
  function Cap(events: seq<Response>): (c: seq<Response>)
    ensures |c| <= EVENT_CAP
  {
    if |events| <= EVENT_CAP then events else events[|events| - EVENT_CAP..]
  }

  /** Up to 256 entries, the last ones. */
  lemma CapKeepsNewest(events: seq<Response>)
    ensures var c := Cap(events);
            && |c| == (if |events| < 256 then |events| else 256)
            && c == events[|events| - |c|..]
  {
    assert |events| <= EVENT_CAP ==> events[0..] == events;
  }

  lemma CapAppend(a: seq<Response>, b: seq<Response>)
    ensures Cap(Cap(a) + b) == Cap(a + b)
  {
  }

  lemma CapIdempotent(events: seq<Response>)
    ensures |events| <= EVENT_CAP ==> Cap(events) == events
  {
  }

  lemma CapHits(events: seq<Response>, n: u32)
    ensures Hits(Cap(events), n) <= Hits(events, n)
  {
    if |events| > EVENT_CAP {
      var k := |events| - EVENT_CAP;
      assert events == events[..k] + events[k..];
      HitsAppend(events[..k], events[k..], n);
    }
  }

  // ---------- one command's answer ----------

  /** What taking the frames with this request id off a list yields: the
      intermediates collected before the final response, the final response,
      and everything left in the list. */
  datatype Taken = Taken(collected: seq<Response>, final: Option<Response>, rest: seq<Response>)

  datatype Request = Request(id: u32, command: byte, collectType: Option<byte>) {
    predicate Collects(f: Response) {
      collectType.Some? && f.responseType == collectType.value && f.responseType != command
    }
  }

  function Take(frames: seq<Response>, q: Request): Taken {
    if frames == [] then Taken([], None, [])
    else if frames[0].requestId != q.id then
      var t := Take(frames[1..], q);
      t.(rest := [frames[0]] + t.rest)
    else if q.Collects(frames[0]) then
      var t := Take(frames[1..], q);
      t.(collected := [frames[0]] + t.collected)
    else Taken([], Some(frames[0]), frames[1..])
  }

  /** What one frame does to the taking of those behind it. */
  lemma TakeHead(f: Response, rest: seq<Response>, q: Request)
    ensures var t, u := Take([f] + rest, q), Take(rest, q);
            if f.requestId != q.id then t == u.(rest := [f] + u.rest)
            else if q.Collects(f) then t == u.(collected := [f] + u.collected)
            else t == Taken([], Some(f), rest)
  {
    assert ([f] + rest)[1..] == rest;
  }

  /** Where the first own frame stands that is not collected. */
  function FinalAt(frames: seq<Response>, q: Request): (k: nat)
    requires Take(frames, q).final.Some?
    ensures k < |frames|
  {
    if frames[0].requestId == q.id && !q.Collects(frames[0]) then 0 else 1 + FinalAt(frames[1..], q)
  }

  /** Take, declared: the final response is the first own frame that is not
      collected; the collected frames are the own frames before it, in order;
      what is left is everything else, in order. */
  lemma {:induction false} TakeFinds(frames: seq<Response>, q: Request)
    requires Take(frames, q).final.Some?
    ensures var t, k := Take(frames, q), FinalAt(frames, q);
            && t.final == Some(frames[k]) && frames[k].requestId == q.id
            && (q.collectType == Some(frames[k].responseType) ==> frames[k].responseType == q.command)
            && t.collected == Own(frames[..k], q.id)
            && (forall f | f in t.collected :: q.collectType == Some(f.responseType) && f.responseType != q.command)
            && t.rest == Others(frames[..k], q.id) + frames[k + 1..]
  {
    var k := FinalAt(frames, q);
    if k == 0 {
      assert frames[..0] == [];
    } else {
      TakeFinds(frames[1..], q);
      var front := frames[..k];
      assert front[1..] == frames[1..][..k - 1] && front[0] == frames[0];
      assert frames[k + 1..] == frames[1..][k..];
      assert Own(front, q.id)
          == if frames[0].requestId == q.id then [frames[0]] + Own(front[1..], q.id) else Own(front[1..], q.id);
    }
  }

  /** Without a final response every own frame was collected, and only they
      were taken. */
  lemma {:induction false} TakeFindsNone(frames: seq<Response>, q: Request)
    requires Take(frames, q).final.None?
    ensures var t := Take(frames, q);
            && t.collected == Own(frames, q.id)
            && (forall f | f in t.collected :: q.collectType == Some(f.responseType) && f.responseType != q.command)
            && t.rest == Others(frames, q.id)
  {
    if frames != [] {
      TakeFindsNone(frames[1..], q);
    }
  }

  /** Taking is incremental: what the first part of a stream leaves over is
      all the second part needs. */
  lemma {:induction false} TakeAppend(a: seq<Response>, b: seq<Response>, q: Request)
    ensures var t := Take(a, q);
            if t.final.Some? then Take(a + b, q) == t.(rest := t.rest + b)
            else var u := Take(t.rest + b, q);
                 Take(a + b, q) == Taken(t.collected + u.collected, u.final, u.rest)
  {
    if a == [] {
      assert a + b == b && Take(a, q).rest + b == b;
      assert [] + Take(b, q).collected == Take(b, q).collected;
    } else {
      assert (a + b)[1..] == a[1..] + b;
      TakeAppend(a[1..], b, q);
      var t, t1 := Take(a, q), Take(a[1..], q);
      if a[0].requestId != q.id {
        assert t.rest + b == [a[0]] + (t1.rest + b);
        assert (t.rest + b)[1..] == t1.rest + b;
      } else if q.Collects(a[0]) && t1.final.None? {
        var u := Take(t1.rest + b, q);
        assert [a[0]] + (t1.collected + u.collected) == ([a[0]] + t1.collected) + u.collected;
      }
    }
  }

  /** The answer depends on the frames with the own id only. */
  lemma {:induction false} TakeOwn(frames: seq<Response>, q: Request)
    ensures Take(frames, q).final == Take(Own(frames, q.id), q).final
    ensures Take(frames, q).collected == Take(Own(frames, q.id), q).collected
  {
    if frames != [] {
      TakeOwn(frames[1..], q);
      if frames[0].requestId == q.id {
        assert Own(frames, q.id)[1..] == Own(frames[1..], q.id);
      }
    }
  }

  lemma TakeRestMembers(frames: seq<Response>, q: Request)
    ensures forall f | f in Take(frames, q).rest :: f in frames
  {
  }

  /** Nothing of the own id is left when no final response was found. */
  lemma {:induction false} TakeLeavesNoOwn(frames: seq<Response>, q: Request)
    requires Take(frames, q).final.None?
    ensures Take(Take(frames, q).rest, q) == Taken([], None, Take(frames, q).rest)
  {
    if frames != [] {
      TakeLeavesNoOwn(frames[1..], q);
      if frames[0].requestId != q.id {
        assert Take(frames, q).rest[1..] == Take(frames[1..], q).rest;
      }
    }
  }

  /** list.remove: drops the first entry equal to x. */
  function RemoveFirst(s: seq<Response>, x: Response): seq<Response> {
    if s == [] then [] else if s[0] == x then s[1..] else [s[0]] + RemoveFirst(s[1..], x)
  }

  lemma {:induction false} RemoveFirstAt(a: seq<Response>, x: Response, b: seq<Response>)
    requires x !in a
    ensures RemoveFirst(a + [x] + b, x) == a + b
  {
    if a == [] {
      assert a + [x] + b == [x] + b && a + b == b;
    } else {
      assert (a + [x] + b)[1..] == a[1..] + [x] + b;
      RemoveFirstAt(a[1..], x, b);
    }
  }

  // ---------- answers sent by VICE ----------

  /** A stream holding the replies r to one request between frames of other
      requests and events: if its received part yields an answer, that is the
      answer r alone would yield. */
  lemma {:induction false} AnswerIsFromReplies(kept: seq<Response>, got: seq<Response>, left: seq<Response>,
                            pre: seq<Response>, r: seq<Response>, post: seq<Response>, q: Request)
    requires got + left == pre + r + post && q.id != EVENT_REQUEST_ID
    requires forall f | f in kept || f in pre || f in post :: f.requestId != q.id
    requires forall f | f in r :: f.requestId == q.id
    requires Take(kept + RepliesOf(got), q).final.Some?
    ensures Take(r, q).final == Take(kept + RepliesOf(got), q).final
    ensures Take(r, q).collected == Take(kept + RepliesOf(got), q).collected
    ensures Own(got, q.id) + Own(left, q.id) == r
    ensures Take(Own(got, q.id), q).final.Some?
  {
    OwnAppend(got, left, q.id);
    OwnAppend(pre + r, post, q.id);
    OwnAppend(pre, r, q.id);
    OwnOfNone(pre, q.id);
    OwnOfNone(post, q.id);
    OwnOfNone(kept, q.id);
    OwnOfAll(r, q.id);
    TakeOwn(kept + RepliesOf(got), q);
    OwnAppend(kept, RepliesOf(got), q.id);
    OwnOfReplies(got, q.id);
    assert [] + r + [] == r;
    assert [] + Own(got, q.id) == Own(got, q.id);
    TakeAppend(Own(got, q.id), Own(left, q.id), q);
  }

  /** If besides only the last of the replies is final, then once the answer is
      there, what is still to come was sent after the replies. */
  lemma {:induction false} NothingOlderIsLeft(kept: seq<Response>, got: seq<Response>, left: seq<Response>,
                           pre: seq<Response>, r: seq<Response>, post: seq<Response>, q: Request)
    requires got + left == pre + r + post && q.id != EVENT_REQUEST_ID
    requires forall f | f in kept || f in pre || f in post :: f.requestId != q.id
    requires forall f | f in r :: f.requestId == q.id
    requires Take(kept + RepliesOf(got), q).final.Some?
    requires r != [] && Take(r[..|r| - 1], q).final.None?
    ensures |left| <= |post| && left == post[|post| - |left|..]
  {
    AnswerIsFromReplies(kept, got, left, pre, r, post, q);
    var og, ol := Own(got, q.id), Own(left, q.id);
    if ol != [] {
      var more := r[|og|..|r| - 1];
      assert r[..|r| - 1] == og + more;
      TakeAppend(og, more, q);
      assert false;
    }
    if |left| > |post| {
      var last := r[|r| - 1];
      assert (pre + r + post)[|pre| + |r| - 1] == last;
      assert left[|left| - |post| - 1] == (got + left)[|got| + |left| - |post| - 1];
      assert last in left;
      OwnMembers(left, q.id);
      assert false;
    }
    assert left == (got + left)[|got|..];
    assert post == (pre + r + post)[|pre| + |r|..];
  }
}
