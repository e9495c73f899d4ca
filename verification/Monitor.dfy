/** The monitor client: request/reply transactions and event waiting over one
    connection on which VICE also sends events of its own accord. */
module Monitor {
  import opened Wrappers
  import opened Bytes
  import opened Protocol
  import opened Vice
  import opened Demux

  /** How an operation can fail: no answer in time, VICE gone, VICE answered
      with an error code, an answer that cannot be read,
      request numbers used up. */
  datatype Error = TimedOut | Closed | Refused(code: byte) | Garbled | OutOfIds

  /** How far a connection has come: what was received, everything VICE has sent,
      the clock and the request numbers. */
  datatype Mark = Mark(open: bool, received: seq<Response>, stream: seq<Response>, clock: nat, nextId: nat)

  /** Nothing received is unreceived, nothing sent unsent, a closed connection
      stays closed, and neither the clock nor the numbering goes back. */
  ghost predicate Forward(a: Mark, b: Mark) {
    && (b.open ==> a.open) && a.received <= b.received && a.stream <= b.stream
    && a.clock <= b.clock && a.nextId <= b.nextId
  }

  lemma ForwardSelf(a: Mark)
    ensures Forward(a, a)
  {
  }

  lemma ForwardTrans(a: Mark, b: Mark, c: Mark)
    requires Forward(a, b) && Forward(b, c)
    ensures Forward(a, c) && a.clock <= b.clock <= c.clock && a.received <= b.received <= c.received
  {
  }

  /** What a receive finds: nothing in all the time it waits, the connection
      closed, or frames. */
  datatype Receipt = Silence | HungUp | Frames(frames: seq<Response>)

  datatype Answer = Answer(final: Response, collected: seq<Response>)

  datatype StopInfo = StopInfo(pc: u16, checkpoint: Option<u32>)

  /** The ids of LIST's intermediates differ from its final response only in
      the type, so they must be collected. */
  predicate CollectsList(q: Request) {
    q.command == CHECKPOINT_LIST ==> q.collectType == Some(CHECKPOINT_GET)
  }

  lemma {:induction false} TakeList(cks: seq<Checkpoint>, last: seq<Response>, q: Request)
    requires q.command == CHECKPOINT_LIST && CollectsList(q)
    ensures Take(ReplyFrames(ListReplies(cks), q.id) + last, q) ==
            var t := Take(last, q);
            t.(collected := ReplyFrames(ListReplies(cks), q.id) + t.collected)
  {
    var infos := ReplyFrames(ListReplies(cks), q.id);
    if cks == [] {
      assert infos + last == last;
    } else {
      TakeList(cks[1..], last, q);
      var rest := ReplyFrames(ListReplies(cks[1..]), q.id);
      assert infos == [infos[0]] + rest && infos[0].requestId == q.id && q.Collects(infos[0]);
      hide Take, ReplyFrames, ListReplies;
      ConcatAssoc([infos[0]], rest, last);
      TakeHead(infos[0], rest + last, q);
    }
  }

  /** Only the last frame answering a command is final. */
  lemma OnlyLastIsFinal(m: Machine, q: Request, body: seq<byte>, o: Oracle)
    requires o.Valid() && CollectsList(q)
    ensures var r := ReplyFrames(Execute(m, q.command, body, o).1, q.id);
            r != [] && Take(r[..|r| - 1], q).final.None?
  {
    var replies := Execute(m, q.command, body, o).1;
    if q.command == CHECKPOINT_LIST {
      var infos := ListReplies(m.checkpoints);
      var last := replies[|replies| - 1];
      assert replies == infos + [last];
      assert ReplyFrames([last], q.id)[1..] == [];
      hide Execute, ListReplies;
      ReplyFramesAppend(infos, [last], q.id);
      TakeList(m.checkpoints, [], q);
      hide Take, ReplyFrames;
      var r, frames := ReplyFrames(replies, q.id), ReplyFrames(infos, q.id);
      assert r[..|r| - 1] == frames + [];
    } else {
      assert |replies| == 1;
      assert ReplyFrames(replies, q.id)[..0] == [];
    }
  }

  /** Every frame is an event or answers a request numbered below id. */
  ghost predicate Issued(frames: seq<Response>, id: nat) {
    forall f | f in frames :: f.IsEvent() || f.requestId < id
  }

  lemma IssuedAppend(a: seq<Response>, b: seq<Response>, id: nat)
    requires Issued(a, id) && Unasked(b)
    ensures Issued(a + b, id)
  {
  }

  lemma IssuedSplit(a: seq<Response>, b: seq<Response>, id: nat)
    requires Issued(a + b, id) && OnWire(a + b)
    ensures Issued(a, id) && Issued(b, id) && OnWire(a) && OnWire(b)
  {
    assert forall f | f in a :: f in a + b;
    assert forall f | f in b :: f in a + b;
  }

  lemma SendMore(f: seq<Response>, more: seq<Response>, buf: seq<byte>, wire: seq<byte>)
    requires AllEncodable(f) && AllEncodable(more) && buf + wire == EncodeAll(f)
    ensures AllEncodable(f + more) && buf + (wire + EncodeAll(more)) == EncodeAll(f + more)
  {
    EncodeAllAppend(f, more);
    ConcatAssoc(buf, wire, EncodeAll(more));
  }

  // ---------- what a transaction leaves behind ----------

  /** VICE met the command in machine state met and answered ans to it. */
  ghost predicate Answered(before: Machine, met: Machine, now: Machine, q: Request, body: seq<byte>, o: Oracle,
                           ans: Answer) {
    && o.Valid() && Drift(before, met)
    && Drift(Execute(met, q.command, body, o).0, now)
    && var t := Take(ReplyFrames(Execute(met, q.command, body, o).1, q.id), q);
       t.final == Some(ans.final) && t.collected == ans.collected
  }

  /** The frames of one transaction: old ones in flight, then what VICE sent
      before, as, and after its answer. */
  datatype Sent = Sent(older: seq<Response>, before: seq<Response>, replies: seq<Response>, after: seq<Response>) {
    function All(): seq<Response> {
      older + before + replies + after
    }
  }

  lemma LedgerHolds(events: seq<Response>, got: seq<Response>, left: seq<Response>, s: Sent,
                    a: Machine, met: Machine, next: Machine, now: Machine, n: u32)
    requires got + left == s.All()
    requires Elapse(a, met, s.before) && next.fired == met.fired && Elapse(next, now, s.after)
    requires forall f | f in s.replies :: !f.IsEvent()
    ensures Hits(Cap(events + EventsOf(got)), n) + Hits(left, n) + a.fired[n]
         <= Hits(events, n) + Hits(s.older, n) + now.fired[n]
  {
    CapHits(events + EventsOf(got), n);
    HitsAppend(events, EventsOf(got), n);
    HitsOfEvents(got, n);
    HitsAppend(got, left, n);
    HitsAppend(s.older + s.before + s.replies, s.after, n);
    HitsAppend(s.older + s.before, s.replies, n);
    HitsAppend(s.older, s.before, n);
    NoHits(s.replies, n);
  }

  lemma StreamGrows(received: seq<Response>, older: seq<Response>, got: seq<Response>, left: seq<Response>, s: Sent)
    requires s.older == older && s.All() == got + left
    ensures received + older <= received + got + left
  {
    ConcatAssoc(received, got, left);
    ConcatAssoc(received, older, s.before + s.replies + s.after);
    ConcatAssoc(older, s.before + s.replies, s.after);
    ConcatAssoc(older, s.before, s.replies);
    assert received + got + left == received + older + (s.before + s.replies + s.after);
  }

  lemma StreamExtends(received: seq<Response>, older: seq<Response>, got: seq<Response>, left: seq<Response>,
                      sent: seq<Response>)
    requires older + sent == got + left
    ensures received + older <= received + got + left
  {
    ConcatAssoc(received, got, left);
    ConcatAssoc(received, older, sent);
    assert received + got + left == received + older + sent;
  }

  lemma SendAll(s: Sent, buf: seq<byte>, wire: seq<byte>, q: Request, met: Machine, body: seq<byte>, o: Oracle)
    requires AllEncodable(s.older) && AllEncodable(s.before + s.replies + s.after) && buf + wire == EncodeAll(s.older)
    requires met.Valid() && o.Valid() && q.id != EVENT_REQUEST_ID && Issued(s.older, q.id)
    requires s.replies == ReplyFrames(Execute(met, q.command, body, o).1, q.id)
    requires Unasked(s.before) && Unasked(s.after)
    ensures s.older + (s.before + s.replies + s.after) == s.All()
    ensures AllEncodable(s.All()) && buf + (wire + EncodeAll(s.before + s.replies + s.after)) == EncodeAll(s.All())
    ensures Issued(s.All(), q.id + 1)
  {
    ConcatAssoc(s.older, s.before + s.replies, s.after);
    ConcatAssoc(s.older, s.before, s.replies);
    SendMore(s.older, s.before + s.replies + s.after, buf, wire);
    ReplyIds(met, q, body, o);
    IssuedAll(s, q.id + 1);
  }

  lemma FiledMembers(events: seq<Response>, pending: seq<Response>, frames: seq<Response>, id: nat)
    requires Unasked(events) && OnWire(frames) && Issued(frames, id)
    requires forall f | f in pending :: !f.IsEvent() && f.requestId < id
    ensures Unasked(Cap(events + EventsOf(frames)))
    ensures forall f | f in pending + RepliesOf(frames) :: !f.IsEvent() && f.requestId < id
  {
    EventsOfMembers(frames);
    var all := events + EventsOf(frames);
    assert Unasked(all);
    assert forall f | f in Cap(all) :: f in all;
  }

  lemma NothingSeen(m: Machine, events: seq<Response>, pending: seq<Response>, inFlight: seq<Response>)
    ensures events + EventsOf([]) == events && pending + RepliesOf([]) == pending
    ensures inFlight + [] == [] + inFlight
    ensures Elapse(m, m, [])
    ensures forall t: Taken :: Resumes(t, [], t)
  {
    ElapseNoise(m, m, []);
    forall t: Taken ensures Resumes(t, [], t) {
      assert [] + t.collected == t.collected;
    }
  }

  /** One more round of receiving extends what the transaction has seen. */
  lemma SeenMore(was: Machine, m1: Machine, m2: Machine, e0: seq<Response>, p0: seq<Response>, f0: seq<Response>,
                 f1: seq<Response>, f2: seq<Response>, got: seq<Response>, more: seq<Response>,
                 sent: seq<Response>, sentMore: seq<Response>, q: Request, p1: seq<Response>, collected: seq<Response>)
    requires Elapse(was, m1, sent) && Elapse(m1, m2, sentMore)
    requires f0 + sent == got + f1 && f1 + sentMore == more + f2
    requires Take(p0 + RepliesOf(got), q) == Taken(collected, None, p1)
    ensures Elapse(was, m2, sent + sentMore)
    ensures f0 + (sent + sentMore) == (got + more) + f2
    ensures Cap(Cap(e0 + EventsOf(got)) + EventsOf(more)) == Cap(e0 + EventsOf(got + more))
    ensures Resumes(Take(p0 + RepliesOf(got + more), q), collected, Take(p1 + RepliesOf(more), q))
  {
    ElapseTrans(was, m1, m2, sent, sentMore);
    ConcatAssoc(f0, sent, sentMore);
    ConcatAssoc(got, f1, sentMore);
    ConcatAssoc(got, more, f2);
    EventsOfAppend(got, more);
    RepliesOfAppend(got, more);
    ConcatAssoc(e0, EventsOf(got), EventsOf(more));
    CapAppend(e0 + EventsOf(got), EventsOf(more));
    ConcatAssoc(p0, RepliesOf(got), RepliesOf(more));
    TakeAppend(p0 + RepliesOf(got), RepliesOf(more), q);
  }

  lemma ReplyIds(m: Machine, q: Request, body: seq<byte>, o: Oracle)
    requires m.Valid() && o.Valid() && q.id != EVENT_REQUEST_ID
    ensures forall f | f in ReplyFrames(Execute(m, q.command, body, o).1, q.id) :: f.requestId == q.id && !f.IsEvent()
  {
    ExecuteFrames(m, q.command, body, o, q.id);
  }

  lemma IssuedAll(s: Sent, id: nat)
    requires Issued(s.older, id) && Unasked(s.before) && Unasked(s.after)
    requires forall f | f in s.replies :: f.requestId < id
    ensures Issued(s.All(), id)
  {
  }

  /** How a transaction ends, told from all the replies it has seen. */
  ghost predicate Outcome(q: Request, seen: seq<Response>, r: Result<Answer, Error>, left: seq<Response>) {
    var t := Take(seen, q);
    && left == t.rest
    && match r
       case Success(a) => t.final == Some(a.final) && t.collected == a.collected && a.final.errorCode == OK
       case Failure(Refused(code)) => t.final.Some? && t.final.value.errorCode == code && code != OK
       case Failure(e) => t.final.None? && (e == TimedOut || e == Closed)
  }

  /** Taking from whole equals what was collected so far and taking from what
      is pending now. */
  ghost predicate Resumes(whole: Taken, sofar: seq<Response>, now: Taken) {
    whole == Taken(sofar + now.collected, now.final, now.rest)
  }

  lemma ExecuteFired(m: Machine, command: byte, body: seq<byte>, o: Oracle)
    requires o.Valid()
    ensures Execute(m, command, body, o).0.fired == m.fired
    ensures Execute(m, command, body, o).0.log == m.log + [command]
    ensures command != EXIT ==> !Execute(m, command, body, o).0.running
  {
  }

  /** Once a command other than EXIT is answered, no hit is on its way. */
  lemma QuietAfterAnswer(kept: seq<Response>, got: seq<Response>, left: seq<Response>, s: Sent, q: Request,
                         met: Machine, body: seq<byte>, o: Oracle, now: Machine)
    requires got + left == s.All() && q.id != EVENT_REQUEST_ID && q.command != EXIT && CollectsList(q) && o.Valid()
    requires forall f | f in kept || f in s.older || f in s.before || f in s.after :: f.requestId != q.id
    requires s.replies == ReplyFrames(Execute(met, q.command, body, o).1, q.id)
    requires forall f | f in s.replies :: f.requestId == q.id
    requires Take(kept + RepliesOf(got), q).final.Some?
    requires Elapse(Execute(met, q.command, body, o).0, now, s.after)
    ensures forall n: u32 :: Hits(left, n) == 0
  {
    OnlyLastIsFinal(met, q, body, o);
    NothingOlderIsLeft(kept, got, left, s.older + s.before, s.replies, s.after, q);
    forall n: u32 ensures Hits(left, n) == 0 {
      DriftOne(Execute(met, q.command, body, o).0, now, n);
      ExecuteFired(met, q.command, body, o);
      var k := |s.after| - |left|;
      assert s.after == s.after[..k] + s.after[k..];
      HitsAppend(s.after[..k], s.after[k..], n);
    }
  }

  /** One command's course: VICE ran until it met the command, answered it,
      and ran on; each part of what it sent belongs to one of these phases. */
  ghost predicate Conversed(a: Machine, met: Machine, now: Machine, q: Request, body: seq<byte>, o: Oracle, s: Sent) {
    && o.Valid()
    && Elapse(a, met, s.before)
    && s.replies == ReplyFrames(Execute(met, q.command, body, o).1, q.id)
    && Elapse(Execute(met, q.command, body, o).0, now, s.after)
  }

  /** No checkpoint is reported more often than it fired: hits that wait to be
      read do not outnumber the new stops. */
  ghost predicate Ledger(a: Machine, b: Machine, events: seq<Response>, inFlight: seq<Response>,
                         events': seq<Response>, inFlight': seq<Response>) {
    forall n: u32 ::
      Hits(events', n) + Hits(inFlight', n) + a.fired[n] <= Hits(events, n) + Hits(inFlight, n) + b.fired[n]
  }

  lemma LedgerRefl(m: Machine, events: seq<Response>, inFlight: seq<Response>)
    ensures Ledger(m, m, events, inFlight, events, inFlight)
  {
  }

  lemma Concludes(m0: Machine, met: Machine, now: Machine, q: Request, body: seq<byte>, o: Oracle, s: Sent,
                  e0: seq<Response>, p0: seq<Response>, got: seq<Response>, left: seq<Response>,
                  r: Result<Answer, Error>, p1: seq<Response>)
    requires m0.Valid() && q.id != EVENT_REQUEST_ID && Conversed(m0, met, now, q, body, o, s)
    requires s.All() == got + left && Outcome(q, p0 + RepliesOf(got), r, p1)
    requires Issued(s.older, q.id) && forall f | f in p0 :: !f.IsEvent() && f.requestId < q.id
    ensures Ledger(m0, now, e0, s.older, Cap(e0 + EventsOf(got)), left)
    ensures r.Success? ==> Answered(m0, met, now, q, body, o, r.value)
    ensures r.Success? && q.command != EXIT && CollectsList(q) ==> forall n: u32 :: Hits(left, n) == 0
  {
    var next := Execute(met, q.command, body, o).0;
    DriftValid(m0, met);
    ReplyIds(met, q, body, o);
    ExecuteFired(met, q.command, body, o);
    forall n: u32
      ensures Hits(Cap(e0 + EventsOf(got)), n) + Hits(left, n) + m0.fired[n] <= Hits(e0, n) + Hits(s.older, n)
              + now.fired[n]
    {
      LedgerHolds(e0, got, left, s, m0, met, next, now, n);
    }
    if r.Success? {
      AnswerIsFromReplies(p0, got, left, s.older + s.before, s.replies, s.after, q);
      if q.command != EXIT && CollectsList(q) {
        QuietAfterAnswer(p0, got, left, s, q, met, body, o, now);
      }
    }
  }

  /** The machine EXIT leaves. */
  function Started(m: Machine): Machine {
    m.(running := true, checkpoints := ClearHits(m.checkpoints), log := m.log + [EXIT],
       starts := m.starts + [Start(m.pc, m.store)])
  }

  /** The command reached VICE, unless no request number was left. */
  ghost predicate Logged(a: Machine, b: Machine, command: byte, unsent: bool) {
    b.log == if unsent then a.log else a.log + [command]
  }

  lemma NoUnasked()
    ensures Unasked([])
  {
  }

  lemma ConversedLog(a: Machine, met: Machine, now: Machine, q: Request, body: seq<byte>, o: Oracle, s: Sent)
    requires Conversed(a, met, now, q, body, o, s)
    ensures now.log == a.log + [q.command]
  {
    DriftOne(a, met, 0);
    ExecuteFired(met, q.command, body, o);
    DriftOne(Execute(met, q.command, body, o).0, now, 0);
  }

  lemma HaltedStays(a: Machine, b: Machine)
    requires Drift(a, b) && !a.running
    ensures b == a
  {
  }

  lemma SetBodyRead(start: u16, end: u16, stop: bool, enabled: bool, op: byte, temporary: bool)
    ensures var b := SetBody(start, end, stop, enabled, op, temporary);
            && |b| == 8 && Get16(b, 0) == start && Get16(b, 2) == end
            && (b[4] != 0 <==> stop) && (b[5] != 0 <==> enabled) && b[6] == op && (b[7] != 0 <==> temporary)
  {
    var b := SetBody(start, end, stop, enabled, op, temporary);
    assert b[0..2] == Le16(start) && b[2..4] == Le16(end);
  }

  /** A set that VICE does not refuse is answered with the new checkpoint. */
  lemma SetAnswer(m: Machine, q: Request, o: Oracle, start: u16, end: u16, stop: bool, enabled: bool, op: byte,
                  temporary: bool)
    requires q.command == CHECKPOINT_SET && q.collectType == None && o.Valid()
    ensures var x := Execute(m, CHECKPOINT_SET, SetBody(start, end, stop, enabled, op, temporary), o);
            var final := Take(ReplyFrames(x.1, q.id), q).final;
            && final.Some?
            && (final.value.errorCode == OK ==>
                && m.nextNumber < 0x1_0000_0000
                && var c := Checkpoint(m.nextNumber, false, start, end, stop, enabled, op, temporary, 0, 0, false, 0);
                   && ParseCheckpoint(final.value.body) == Some(c)
                   && x.0 == m.(running := false, log := m.log + [CHECKPOINT_SET],
                                checkpoints := m.checkpoints + [c], nextNumber := m.nextNumber + 1))
  {
    SetBodyRead(start, end, stop, enabled, op, temporary);
    if m.nextNumber < 0x1_0000_0000 {
      CheckpointRoundTrip(Checkpoint(m.nextNumber, false, start, end, stop, enabled, op, temporary, 0, 0, false, 0));
    }
  }

  /** Parses the collected checkpoint infos. */
  function ParseAll(frames: seq<Response>): Option<seq<Checkpoint>> {
    if frames == [] then Some([])
    else
      var c, more := ParseCheckpoint(frames[0].body), ParseAll(frames[1..]);
      if c.Some? && more.Some? then Some([c.value] + more.value) else None
  }

  lemma {:induction false} ParseAllOfList(cks: seq<Checkpoint>, rid: u32)
    ensures ParseAll(ReplyFrames(ListReplies(cks), rid)) == Some(cks)
  {
    if cks != [] {
      CheckpointRoundTrip(cks[0]);
      ParseAllOfList(cks[1..], rid);
      var frames := ReplyFrames(ListReplies(cks), rid);
      assert ListReplies(cks)[1..] == ListReplies(cks[1..]);
      assert frames[1..] == ReplyFrames(ListReplies(cks[1..]), rid);
      assert frames[0].body == CheckpointBody(cks[0]);
      assert cks == [cks[0]] + cks[1..];
    }
  }

  /** The intermediates of a list answer spell VICE's checkpoint table. */
  lemma ListAnswer(cks: seq<Checkpoint>, q: Request)
    requires q.command == CHECKPOINT_LIST && CollectsList(q)
    ensures var last := [Reply(CHECKPOINT_LIST, OK, Le32(|cks| % 0x1_0000_0000))];
            ParseAll(Take(ReplyFrames(ListReplies(cks) + last, q.id), q).collected) == Some(cks)
  {
    var last := [Reply(CHECKPOINT_LIST, OK, Le32(|cks| % 0x1_0000_0000))];
    ReplyFramesAppend(ListReplies(cks), last, q.id);
    TakeList(cks, ReplyFrames(last, q.id), q);
    var infos := ReplyFrames(ListReplies(cks), q.id);
    assert infos + [] == infos;
    ParseAllOfList(cks, q.id);
  }

  lemma {:induction false} LastRegister(regs: seq<(byte, u16)>, id: byte, value: u16, base: map<byte, u16>)
    ensures var file := RegisterFile(regs + [(id, value)], base); id in file && file[id] == value
  {
    if regs == [] {
      assert regs + [(id, value)] == [(id, value)];
    } else {
      assert (regs + [(id, value)])[1..] == regs[1..] + [(id, value)];
      LastRegister(regs[1..], id, value, base[regs[0].0 := regs[0].1]);
    }
  }

  /** What a REGISTERS_GET answer of this machine is read as. */
  lemma FileRoundTrip(m: Machine)
    ensures RegistersOf(RegistersBody(m.store.registers + [(PC_ID, m.pc)])) == Some(m.File())
    ensures PC_ID in m.File() && m.File()[PC_ID] == m.pc
  {
    var regs := m.store.registers + [(PC_ID, m.pc)];
    RegistersRoundTrip(regs, 0);
    assert RegistersSetBody(regs, 0)[1..] == RegistersBody(regs);
    LastRegister(m.store.registers, PC_ID, m.pc, map[]);
  }

  lemma MemorySetRead(start: u16, data: seq<byte>)
    requires data != [] && start + |data| <= 0x1_0000
    ensures var b := MemorySetBody(start, data);
            GoodMemorySet(b) && Get16(b, 1) == start && b[MEM_HEADER_SIZE..] == data
  {
    var b := MemorySetBody(start, data);
    var end := start + |data| - 1;
    assert b == [0] + Le16(start) + (Le16(end) + [0] + Le16(0) + data);
    Get16OfLe16(start, [0], Le16(end) + [0] + Le16(0) + data);
    assert b == ([0] + Le16(start)) + Le16(end) + ([0] + Le16(0) + data);
    Get16OfLe16(end, [0] + Le16(start), [0] + Le16(0) + data);
  }

  /** One register assigned. */
  function SetOne(m: Machine, id: byte, value: u16): Machine {
    m.(pc := if id == PC_ID then value else m.pc,
       store := m.store.(registers := Assigned(m.store.registers, map[id := value])))
  }

  lemma OneRegister(id: byte, value: u16)
    ensures RegisterFile([(id, value)], map[]) == map[id := value]
  {
  }

  lemma SiftedMembers(events: seq<Response>, pending: seq<Response>, frames: seq<Response>, id: nat)
    requires Unasked(events) && OnWire(frames) && Issued(frames, id)
    requires forall f | f in pending :: !f.IsEvent() && f.requestId < id
    ensures Unasked(events + EventsOf(frames))
    ensures forall f | f in pending + RepliesOf(frames) :: !f.IsEvent() && f.requestId < id
  {
    EventsOfMembers(frames);
  }

  lemma DriftRefl(m: Machine)
    ensures Drift(m, m)
  {
  }

  // ---------- the checkpoint named by a wait ----------

  /** The number of the last hit in a list of events, else the earlier one. */
  function LastHit(events: seq<Response>, earlier: Option<u32>): Option<u32> {
    if events == [] then earlier
    else LastHit(events[1..], if IsHit(events[0]) then Some(HitNumber(events[0])) else earlier)
  }

  lemma {:induction false} LastHitAppend(a: seq<Response>, b: seq<Response>, earlier: Option<u32>)
    ensures LastHit(a + b, earlier) == LastHit(b, LastHit(a, earlier))
  {
    if a == [] {
      assert a + b == b;
    } else {
      assert (a + b)[1..] == a[1..] + b;
      LastHitAppend(a[1..], b, if IsHit(a[0]) then Some(HitNumber(a[0])) else earlier);
    }
  }

  lemma LastHitStep(events: seq<Response>, k: nat, earlier: Option<u32>)
    requires k < |events|
    ensures LastHit(events[..k + 1], earlier) ==
            if IsHit(events[k]) then Some(HitNumber(events[k])) else LastHit(events[..k], earlier)
  {
    assert events[..k + 1] == events[..k] + [events[k]];
    LastHitAppend(events[..k], [events[k]], earlier);
  }

  /** A hit that is named was counted, unless it is the earlier one. */
  lemma {:induction false} LastHitCounts(events: seq<Response>, earlier: Option<u32>)
    ensures var c := LastHit(events, earlier); c == earlier || (c.Some? && Hits(events, c.value) >= 1)
  {
    if events != [] {
      LastHitCounts(events[1..], if IsHit(events[0]) then Some(HitNumber(events[0])) else earlier);
    }
  }

  function One(c: Option<u32>, n: u32): nat {
    if c == Some(n) then 1 else 0
  }

  /** The ledger with one hit of the named checkpoint consumed. */
  ghost predicate Reported(a: Machine, b: Machine, events: seq<Response>, inFlight: seq<Response>,
                           events': seq<Response>, inFlight': seq<Response>, c: Option<u32>) {
    forall n: u32 ::
      Hits(events', n) + Hits(inFlight', n) + a.fired[n] + One(c, n) <= Hits(events, n) + Hits(inFlight, n) + b.fired[n]
  }

  /** A hit of checkpoint n was consumed. */
  ghost predicate Bumped(a: Machine, b: Machine, events: seq<Response>, inFlight: seq<Response>,
                         events': seq<Response>, inFlight': seq<Response>, n: u32) {
    Hits(events', n) + Hits(inFlight', n) + a.fired[n] + 1 <= Hits(events, n) + Hits(inFlight, n) + b.fired[n]
  }

  lemma ReportedNone(m: Machine, events: seq<Response>, inFlight: seq<Response>)
    ensures Reported(m, m, events, inFlight, events, inFlight, None)
  {
  }

  lemma ReportedLedger(a: Machine, b: Machine, events: seq<Response>, inFlight: seq<Response>,
                       events': seq<Response>, inFlight': seq<Response>, c: Option<u32>)
    requires Reported(a, b, events, inFlight, events', inFlight', c)
    ensures Ledger(a, b, events, inFlight, events', inFlight')
    ensures c.Some? ==> Bumped(a, b, events, inFlight, events', inFlight', c.value)
  {
    forall n: u32
      ensures Hits(events', n) + Hits(inFlight', n) + a.fired[n] <= Hits(events, n) + Hits(inFlight, n) + b.fired[n]
    {
      assert One(c, n) >= 0;
    }
    if c.Some? {
      assert One(c, c.value) == 1;
    }
  }

  /** Polled events leave the queues; reading the first k of them names a
      checkpoint whose hit was among them. */
  lemma PollHits(m0: Machine, m1: Machine, m2: Machine, e0: seq<Response>, f0: seq<Response>, e1: seq<Response>,
                 f1: seq<Response>, got: seq<Response>, f2: seq<Response>, sent: seq<Response>, seen: seq<Response>,
                 k: nat, c: Option<u32>)
    requires Reported(m0, m1, e0, f0, e1, f1, c) && Elapse(m1, m2, sent)
    requires f1 + sent == got + f2 && seen == e1 + EventsOf(got) && k <= |seen|
    ensures Reported(m0, m2, e0, f0, [], f2, LastHit(seen[..k], c))
    ensures Ledger(m0, m2, e0, f0, [], f2)
    ensures var d := LastHit(seen[..k], c); d.Some? ==> Bumped(m0, m2, e0, f0, [], f2, d.value)
  {
    var d := LastHit(seen[..k], c);
    LastHitCounts(seen[..k], c);
    assert seen == seen[..k] + seen[k..];
    forall n: u32
      ensures Hits([], n) + Hits(f2, n) + m0.fired[n] + One(d, n) <= Hits(e0, n) + Hits(f0, n) + m2.fired[n]
    {
      HitsAppend(f1, sent, n);
      HitsAppend(got, f2, n);
      HitsAppend(e1, EventsOf(got), n);
      HitsOfEvents(got, n);
      HitsAppend(seen[..k], seen[k..], n);
      assert Hits(e1, n) + Hits(f1, n) + m0.fired[n] + One(c, n) <= Hits(e0, n) + Hits(f0, n) + m1.fired[n];
    }
    ReportedLedger(m0, m2, e0, f0, [], f2, d);
  }

  lemma PollLost(m0: Machine, m1: Machine, m2: Machine, e0: seq<Response>, f0: seq<Response>, e1: seq<Response>,
                 f1: seq<Response>, got: seq<Response>, f2: seq<Response>, sent: seq<Response>, c: Option<u32>)
    requires Reported(m0, m1, e0, f0, e1, f1, c) && Elapse(m1, m2, sent) && f1 + sent == got + f2
    ensures Ledger(m0, m2, e0, f0, [], f2)
  {
    PollHits(m0, m1, m2, e0, f0, e1, f1, got, f2, sent, e1 + EventsOf(got), 0, c);
  }

  lemma ElapseDrift(a: Machine, b: Machine, sent: seq<Response>)
    requires Elapse(a, b, sent)
    ensures Drift(a, b)
  {
  }

  ghost predicate Stopless(events: seq<Response>) {
    forall f | f in events :: f.responseType != STOPPED
  }

  /** c names the checkpoint of the last hit in a list of events, if any. */
  ghost predicate LastHitIs(events: seq<Response>, c: Option<u32>) {
    match c
    case None => forall f | f in events :: !IsHit(f)
    case Some(n) =>
      exists j: nat :: j < |events| && IsHit(events[j]) && HitNumber(events[j]) == n
                       && forall m | j < m < |events| :: !IsHit(events[m])
  }

  lemma {:induction false} LastHitMeaning(events: seq<Response>)
    ensures LastHitIs(events, LastHit(events, None))
  {
    if events != [] {
      var n := |events| - 1;
      var front, e := events[..n], events[n];
      LastHitMeaning(front);
      LastHitStep(events, n, None);
      assert events[..n + 1] == events && events == front + [e];
      hide IsHit;
      if !IsHit(e) && LastHit(front, None).Some? {
        var c := LastHit(front, None).value;
        var j: nat :| j < |front| && IsHit(front[j]) && HitNumber(front[j]) == c
                      && forall m | j < m < |front| :: !IsHit(front[m]);
        assert IsHit(events[j]) && forall m | j < m < |events| :: !IsHit(events[m]);
      }
    }
  }

  /** The i-th event is the first STOPPED: it tells the pc, and the last hit
      before it the checkpoint. */
  ghost predicate StopsAt(events: seq<Response>, i: nat, info: StopInfo) {
    && i < |events| && events[i].responseType == STOPPED && |events[i].body| >= 2
    && var lo: int, hi: int := events[i].body[0], events[i].body[1];
    && info.pc == lo + 0x100 * hi
    && Stopless(events[..i]) && LastHitIs(events[..i], info.checkpoint)
  }

  /** The stop a list of events tells. */
  ghost predicate Tells(events: seq<Response>, info: StopInfo) {
    exists i: nat :: StopsAt(events, i, info)
  }

  /** A wait has read the events seen, without a stop; with those still queued
      they are all that was queued or received since it began. */
  ghost predicate Heard(seen: seq<Response>, queued: seq<Response>, e0: seq<Response>, heard: seq<Response>,
                        c: Option<u32>) {
    seen + queued == e0 + EventsOf(heard) && Stopless(seen) && c == LastHit(seen, None)
    && (queued != [] ==> seen == [] && heard == [])
  }

  lemma NothingHeard(e0: seq<Response>, received: seq<Response>)
    ensures Heard([], e0, e0, [], None) && received == received + []
  {
    assert [] + e0 == e0 && e0 + EventsOf([]) == e0;
  }

  lemma HeardNone(seen: seq<Response>, queued: seq<Response>, e0: seq<Response>, heard: seq<Response>, c: Option<u32>)
    requires Heard(seen, queued, e0, heard, c)
    ensures (queued == [] && Stopless(e0 + EventsOf(heard))) || (queued == e0 && heard == [])
  {
    assert EventsOf([]) == [];
    assert seen + [] == seen && [] + queued == queued && e0 + [] == e0;
  }

  lemma HeardAll(seen: seq<Response>, e1: seq<Response>, e0: seq<Response>, heard: seq<Response>, c: Option<u32>,
                 got: seq<Response>, polled: seq<Response>)
    requires Heard(seen, e1, e0, heard, c) && polled == e1 + EventsOf(got)
    ensures e0 + EventsOf(heard + got) == seen + polled
  {
    EventsOfAppend(heard, got);
    ConcatAssoc(e0, EventsOf(heard), EventsOf(got));
    ConcatAssoc(seen, e1, EventsOf(got));
  }

  lemma HeardMore(seen: seq<Response>, e1: seq<Response>, e0: seq<Response>, heard: seq<Response>, c: Option<u32>,
                  got: seq<Response>, polled: seq<Response>)
    requires Heard(seen, e1, e0, heard, c) && polled == e1 + EventsOf(got) && Stopless(polled)
    ensures Heard(seen + polled, [], e0, heard + got, LastHit(polled, c))
  {
    HeardAll(seen, e1, e0, heard, c, got, polled);
    LastHitAppend(seen, polled, None);
    assert seen + polled + [] == seen + polled;
    hide EventsOf, LastHit;
  }

  lemma HeardStop(seen: seq<Response>, e1: seq<Response>, e0: seq<Response>, heard: seq<Response>, c: Option<u32>,
                  got: seq<Response>, polled: seq<Response>, k: nat)
    requires Heard(seen, e1, e0, heard, c) && polled == e1 + EventsOf(got) && k < |polled|
    requires polled[k].responseType == STOPPED && |polled[k].body| >= 2 && Stopless(polled[..k])
    ensures Tells(e0 + EventsOf(heard + got), StopInfo(Get16(polled[k].body, 0), LastHit(polled[..k + 1], c)))
  {
    HeardAll(seen, e1, e0, heard, c, got, polled);
    var all, i := seen + polled, |seen| + k;
    assert all[..i] == seen + polled[..k] && all[i] == polled[k];
    LastHitAppend(seen, polled[..k], None);
    LastHitStep(polled, k, c);
    LastHitMeaning(all[..i]);
    hide EventsOf, LastHit, LastHitIs;
    assert StopsAt(all, i, StopInfo(Get16(polled[k].body, 0), LastHit(polled[..k + 1], c)));
  }

  /** Reads polled events up to and including the first STOPPED. */
  method FirstStop(events: seq<Response>, earlier: Option<u32>)
    returns (checkpoint: Option<u32>, pc: Option<u16>, ghost k: nat)
    requires Unasked(events)
    ensures k <= |events| && checkpoint == LastHit(events[..k], earlier)
    ensures pc.None? ==> k == |events| && checkpoint == LastHit(events, earlier) && Stopless(events)
    ensures pc.Some? ==> 0 < k && events[k - 1].responseType == STOPPED
                         && |events[k - 1].body| >= 2 && pc.value == Get16(events[k - 1].body, 0)
                         && Stopless(events[..k - 1])
  {
    checkpoint := earlier;
    for i := 0 to |events|
      invariant checkpoint == LastHit(events[..i], earlier) && Stopless(events[..i])
    {
      var ev := events[i];
      assert ev in events;
      LastHitStep(events, i, earlier);
      if IsHit(ev) {
        checkpoint := Some(HitNumber(ev));
      }
      if ev.responseType == STOPPED {
        return checkpoint, Some(Get16(ev.body, 0)), i + 1;
      }
      assert events[..i + 1] == events[..i] + [ev];
    }
    assert events[..|events|] == events;
    return checkpoint, None, |events|;
  }

  /** The longest single poll while waiting for a stop, and the shortest receive
      of a poll (in milliseconds). */
  const POLL := 500
  const LEAST := 50

  /** Where a scan of the pending replies stands at index k: the frames kept
      so far are others', and what is left to take completes what was taken. */
  ghost predicate Scanned(snapshot: seq<Response>, k: nat, q: Request, sofar: seq<Response>, kept: seq<Response>,
                          collected: seq<Response>, pending: seq<Response>)
  {
    && k <= |snapshot| && pending == kept + snapshot[k..]
    && (forall f | f in kept :: f.requestId != q.id)
    && var t, u := Take(snapshot, q), Take(snapshot[k..], q);
    && sofar + t.collected == collected + u.collected && t.final == u.final && t.rest == kept + u.rest
  }

  lemma ScanStarts(snapshot: seq<Response>, q: Request, sofar: seq<Response>)
    ensures Scanned(snapshot, 0, q, sofar, [], sofar, snapshot)
  {
    assert snapshot[0..] == snapshot;
  }

  lemma ScanStep(snapshot: seq<Response>, k: nat, q: Request, sofar: seq<Response>, kept: seq<Response>,
                 collected: seq<Response>, pending: seq<Response>)
    requires k < |snapshot| && Scanned(snapshot, k, q, sofar, kept, collected, pending)
    ensures var resp := snapshot[k];
            if resp.requestId != q.id then Scanned(snapshot, k + 1, q, sofar, kept + [resp], collected, pending)
            else if q.Collects(resp)
            then Scanned(snapshot, k + 1, q, sofar, kept, collected + [resp], RemoveFirst(pending, resp))
            else
              var t := Take(snapshot, q);
              collected == sofar + t.collected && t.final == Some(resp) && t.rest == RemoveFirst(pending, resp)
  {
    var resp, rest := snapshot[k], snapshot[k + 1..];
    assert snapshot[k..] == [resp] + rest;
    TakeHead(resp, rest, q);
    var t, u, w := Take(snapshot, q), Take(snapshot[k..], q), Take(rest, q);
    ConcatAssoc(kept, [resp], rest);
    if resp.requestId != q.id {
      ConcatAssoc(kept, [resp], w.rest);
    } else {
      RemoveFirstAt(kept, resp, rest);
      assert pending == kept + [resp] + rest;
      ConcatAssoc(collected, [resp], w.collected);
      assert collected + [] == collected;
    }
    hide Take, RemoveFirst;
  }

  lemma ScanEnds(snapshot: seq<Response>, q: Request, sofar: seq<Response>, kept: seq<Response>,
                 collected: seq<Response>, pending: seq<Response>)
    requires Scanned(snapshot, |snapshot|, q, sofar, kept, collected, pending)
    ensures var t := Take(snapshot, q); collected == sofar + t.collected && t.final == None && pending == t.rest
  {
    assert snapshot[|snapshot|..] == [] && collected + [] == collected && kept + [] == kept;
  }

  class MonitorClient {
    const vice: Vice
    const decoder: FrameDecoder
    var events: seq<Response>
    var pending: seq<Response>
    var nextId: nat
    var timeout: nat
    /** Every frame decoded so far. */
    ghost var received: seq<Response>

    constructor (vice: Vice, timeout: nat)
      requires vice.Valid() && vice.wire == [] && vice.inFlight == []
      ensures Valid() && this.vice == vice && fresh(decoder)
      ensures events == [] && pending == [] && nextId == 1 && received == []
    {
      this.vice := vice;
      this.decoder := new FrameDecoder();
      this.timeout := timeout;
      events, pending, nextId, received := [], [], 1, [];
    }

    ghost predicate Valid()
      reads this, vice, decoder
    {
      && vice.Valid()
      && InStep()
      && 1 <= nextId
      && |events| <= EVENT_CAP
      && Unasked(events)
      && (forall f | f in pending :: !f.IsEvent() && f.requestId < nextId)
      && Issued(vice.inFlight, nextId)
    }

    /** Buffered bytes and bytes on the wire spell the frames in flight. */
    ghost predicate InStep()
      reads vice, decoder
    {
      AllEncodable(vice.inFlight) && decoder.buf + vice.wire == EncodeAll(vice.inFlight)
    }

    /** Hits of checkpoint n that were sent and not yet consumed or dropped. */
    ghost function Unread(n: u32): nat
      reads this, vice
    {
      Hits(events, n) + Hits(vice.inFlight, n)
    }

    /** Everything VICE has sent: what was decoded and what is under way. */
    ghost function Stream(): seq<Response>
      reads this, vice
    {
      received + vice.inFlight
    }

    ghost function At(): Mark
      reads this, vice
    {
      Mark(vice.open, received, Stream(), vice.clock, nextId)
    }

    ghost predicate Onward(was: Mark)
      reads this, vice
    {
      Forward(was, At())
    }

    /** No hit is on its way. */
    ghost predicate Quiet()
      reads vice
    {
      forall n: u32 :: Hits(vice.inFlight, n) == 0
    }

    /** Reads the clock. */
    method Clock() returns (t: nat)
      requires Valid()
      modifies vice`clock
      ensures Valid() && t == vice.clock > old(vice.clock) && Onward(old(At()))
    {
      t := vice.Now();
    }

    /** Part of the wire arrives, cut anywhere, and is decoded. */
    method Deliver() returns (frames: seq<Response>)
      requires InStep()
      modifies vice`wire, vice`inFlight, decoder, this`received
      ensures InStep()
      ensures old(vice.inFlight) == frames + vice.inFlight && received == old(received) + frames
    {
      var size: nat :| size <= |vice.wire|;
      var chunk, rest := vice.wire[..size], vice.wire[size..];
      ghost var all := vice.inFlight;
      assert decoder.buf + vice.wire == (decoder.buf + chunk) + rest;
      DecodeOfPrefix(decoder.buf + chunk, rest, all);
      var fed := decoder.Feed(chunk);
      frames := fed.value;
      vice.wire := rest;
      vice.inFlight := all[|frames|..];
      received := received + frames;
      assert all == frames + all[|frames|..];
    }

    /** Time passes on VICE's side. */
    method Idle() returns (ghost sent: seq<Response>)
      requires Valid()
      modifies vice`machine, vice`wire, vice`inFlight, vice`open
      ensures Valid() && (vice.open ==> old(vice.open))
      ensures Elapse(old(vice.machine), vice.machine, sent)
      ensures vice.inFlight == old(vice.inFlight) + sent
    {
      sent := vice.Slice();
      SendMore(old(vice.inFlight), sent, decoder.buf, old(vice.wire));
      IssuedAppend(old(vice.inFlight), sent, nextId);
    }

    /** One socket receive: some time passes, all of the patience when nothing
        comes; then the connection is closed, or some bytes arrive. */
    method Recv(patience: nat) returns (r: Receipt, ghost sent: seq<Response>)
      requires Valid()
      modifies vice, decoder, this`received
      ensures Valid() && (vice.open ==> old(vice.open))
      ensures vice.clock >= old(vice.clock) + if r.Silence? then patience else 0
      ensures Elapse(old(vice.machine), vice.machine, sent)
      ensures r.Frames? ==>
                && old(vice.inFlight) + sent == r.frames + vice.inFlight && received == old(received) + r.frames
                && OnWire(r.frames) && Issued(r.frames, nextId)
      ensures !r.Frames? ==> old(vice.inFlight) + sent == vice.inFlight && received == old(received)
      ensures r.HungUp? ==> !vice.open
    {
      hide EncodeAll, Machine.Valid, Elapse, Unasked;
      sent := Idle();
      var arrives: bool :| arrives || !arrives;
      if arrives {
        vice.Wait(0);
        var frames := Deliver();
        IssuedSplit(frames, vice.inFlight, nextId);
        return Frames(frames), sent;
      }
      var closes: bool :| closes ==> !vice.open;
      vice.Wait(if closes then 0 else patience);
      r := if closes then HungUp else Silence;
    }

    /** Received frames are sorted into events and replies. */
    method File(frames: seq<Response>)
      requires |events| <= EVENT_CAP
      modifies this`events, this`pending
      ensures events == Cap(old(events) + EventsOf(frames))
      ensures pending == old(pending) + RepliesOf(frames)
    {
      for k := 0 to |frames|
        invariant events == Cap(old(events) + EventsOf(frames[..k]))
        invariant pending == old(pending) + RepliesOf(frames[..k])
      {
        FilterStep(frames, k);
        if frames[k].IsEvent() {
          CapAppend(old(events) + EventsOf(frames[..k]), [frames[k]]);
          ConcatAssoc(old(events), EventsOf(frames[..k]), [frames[k]]);
          events := Cap(events + [frames[k]]);
        } else {
          ConcatAssoc(old(pending), RepliesOf(frames[..k]), [frames[k]]);
          pending := pending + [frames[k]];
        }
      }
      assert frames[..|frames|] == frames;
    }

    /** Goes through the pending replies once: collects this request's
        intermediates and stops at its final response. */
    method Scan(q: Request, sofar: seq<Response>) returns (collected: seq<Response>, final: Option<Response>)
      modifies this`pending
      ensures var t := Take(old(pending), q);
              collected == sofar + t.collected && final == t.final && pending == t.rest
    {
      hide Scanned, Take;
      var snapshot := pending;
      ghost var kept: seq<Response> := [];
      collected := sofar;
      ScanStarts(snapshot, q, sofar);
      for k := 0 to |snapshot|
        invariant Scanned(snapshot, k, q, sofar, kept, collected, pending)
      {
        var resp := snapshot[k];
        ScanStep(snapshot, k, q, sofar, kept, collected, pending);
        if resp.requestId != q.id {
          kept := kept + [resp];
        } else {
          pending := RemoveFirst(pending, resp);
          if q.Collects(resp) {
            collected := collected + [resp];
          } else {
            return collected, Some(resp);
          }
        }
      }
      ScanEnds(snapshot, q, sofar, kept, collected, pending);
      return collected, None;
    }

    /** Numbers a request, sends it, and lets VICE process it. */
    method Send(q: Request, body: seq<byte>) returns (ghost s: Sent, ghost met: Machine, ghost o: Oracle)
      requires Valid() && q.id == nextId < EVENT_REQUEST_ID
      modifies this`nextId, vice`machine, vice`wire, vice`inFlight, vice`open
      ensures Valid() && nextId == old(nextId) + 1 && (vice.open ==> old(vice.open))
      ensures s.older == old(vice.inFlight) && vice.inFlight == s.All()
      ensures o.Valid() && Elapse(old(vice.machine), met, s.before) && Elapse(vice.machine, vice.machine, s.after)
      ensures vice.machine == Execute(met, q.command, body, o).0
      ensures s.replies == ReplyFrames(Execute(met, q.command, body, o).1, q.id)
    {
      hide Hits, EncodeAll, ReplyFrames, Execute, Drift, Elapse, Machine.Valid, OnWire, Unasked, Issued, AllEncodable;
      ghost var older, wire := vice.inFlight, vice.wire;
      ghost var before, replies, after;
      before, replies, after, met, o := vice.Process(q.command, body, q.id);
      s := Sent(older, before, replies, after);
      DriftValid(old(vice.machine), met);
      SendAll(s, decoder.buf, wire, q, met, body, o);
      nextId := nextId + 1;
    }

    /** Receives once and files what came. */
    method Pump(patience: nat) returns (failed: Option<Error>, ghost got: seq<Response>, ghost sent: seq<Response>)
      requires Valid()
      modifies this`events, this`pending, this`received, vice, decoder
      ensures Valid() && (vice.open ==> old(vice.open))
      ensures vice.clock >= old(vice.clock) + if failed == Some(TimedOut) then patience else 0
      ensures received == old(received) + got
      ensures Elapse(old(vice.machine), vice.machine, sent)
      ensures old(vice.inFlight) + sent == got + vice.inFlight
      ensures events == Cap(old(events) + EventsOf(got)) && pending == old(pending) + RepliesOf(got)
      ensures failed.Some? ==> got == [] && (failed.value == TimedOut || (failed.value == Closed && !vice.open))
    {
      hide Hits, EncodeAll, Cap, EventsOf, RepliesOf, Drift, Elapse, Machine.Valid, AllEncodable;
      var r;
      r, sent := Recv(patience);
      if !r.Frames? {
        got, failed := [], Some(if r.HungUp? then Closed else TimedOut);
        assert received == old(received) + got;
        NothingSeen(vice.machine, events, pending, vice.inFlight);
        CapIdempotent(events);
      } else {
        got, failed := r.frames, None;
        File(r.frames);
        FiledMembers(old(events), old(pending), r.frames, nextId);
      }
    }

    /** Receives until this request's final response is there, or the time-out
        has passed. */
    method Await(q: Request) returns (r: Result<Answer, Error>, ghost got: seq<Response>, ghost sent: seq<Response>)
      requires Valid()
      modifies this`events, this`pending, this`received, vice, decoder
      ensures vice.clock >= old(vice.clock) + (if r == Failure(TimedOut) then timeout else 0)
      ensures Valid() && (r == Failure(Closed) ==> !vice.open) && (vice.open ==> old(vice.open))
      ensures Elapse(old(vice.machine), vice.machine, sent)
      ensures old(vice.inFlight) + sent == got + vice.inFlight && received == old(received) + got
      ensures events == Cap(old(events) + EventsOf(got))
      ensures Outcome(q, old(pending) + RepliesOf(got), r, pending)
    {
      hide Hits, EncodeAll, Take, Cap, EventsOf, RepliesOf, Drift;
      hide Elapse, Machine.Valid, OnWire, Unasked, Issued, AllEncodable;
      got, sent := [], [];
      r := Failure(TimedOut);
      ghost var was, e0, p0, f0 := vice.machine, events, pending, vice.inFlight;
      NothingSeen(was, e0, p0, f0);
      CapIdempotent(e0);
      var collected: seq<Response> := [];
      var now := vice.Now();
      var deadline := now + timeout;
      while true
        invariant Valid() && vice.clock >= old(vice.clock)
        invariant Elapse(was, vice.machine, sent)
        invariant f0 + sent == got + vice.inFlight && received == old(received) + got
        invariant events == Cap(e0 + EventsOf(got)) && r == Failure(TimedOut) && (vice.open ==> old(vice.open))
        invariant Resumes(Take(p0 + RepliesOf(got), q), collected, Take(pending, q))
        decreases deadline - vice.clock
      {
        var final;
        ghost var p := pending;
        collected, final := Scan(q, collected);
        TakeRestMembers(p, q);
        if Take(p, q).final.None? {
          TakeLeavesNoOwn(p, q);
        }
        if final.Some? {
          var code := final.value.errorCode;
          r := if code != OK then Failure(Refused(code)) else Success(Answer(final.value, collected));
          break;
        }
        now := vice.Now();
        if now > deadline {
          break;
        }
        ghost var m1, e1, p1, f1 := vice.machine, events, pending, vice.inFlight;
        ghost var more, sentMore;
        var failed;
        failed, more, sentMore := Pump(timeout);
        SeenMore(was, m1, vice.machine, e0, p0, f0, f1, vice.inFlight, got, more, sent, sentMore, q, p1, collected);
        ConcatAssoc(old(received), got, more);
        got, sent := got + more, sent + sentMore;
        if failed.Some? {
          NothingSeen(was, e0, p1, f0);
          r := Failure(failed.value);
          break;
        }
      }
    }

    /** Sends a command and waits for its answer.  The ghost results tell what
        was received meanwhile and what VICE sent when. */
    method Transact(command: byte, body: seq<byte>, collectType: Option<byte>)
      returns (r: Result<Answer, Error>, ghost got: seq<Response>, ghost s: Sent, ghost met: Machine, ghost o: Oracle)
      requires Valid()
      modifies this`events, this`pending, this`nextId, this`received, vice, decoder
      ensures Onward(old(At()))
      ensures r == Failure(Closed) ==> !vice.open
      ensures r == Failure(TimedOut) ==> vice.clock >= old(vice.clock) + timeout
      ensures Valid() && received == old(received) + got
      ensures r == Failure(OutOfIds) <==> old(nextId) >= EVENT_REQUEST_ID
      ensures r == Failure(OutOfIds) ==> unchanged(this) && unchanged(vice)
      ensures r != Failure(OutOfIds) ==>
                var q := Request(old(nextId), command, collectType);
                && nextId == old(nextId) + 1
                && s.older == old(vice.inFlight) && s.All() == got + vice.inFlight
                && Conversed(old(vice.machine), met, vice.machine, q, body, o, s)
                && events == Cap(old(events) + EventsOf(got))
                && Outcome(q, old(pending) + RepliesOf(got), r, pending)
                && (r.Success? ==> Answered(old(vice.machine), met, vice.machine, q, body, o, r.value))
                && (r.Success? && command != EXIT && CollectsList(q) ==> Quiet())
      ensures Ledger(old(vice.machine), vice.machine, old(events), old(vice.inFlight), events, vice.inFlight)
    {
      hide Hits, EncodeAll, Take, Cap, EventsOf, RepliesOf, Drift;
      hide Elapse, Execute, ReplyFrames, Machine.Valid, OnWire, Unasked, AllEncodable;
      got, s, met, o := [], Sent([], [], [], []), vice.machine, Oracle(OK, [], 0, vice.machine.store);
      ghost var m0, e0, p0, f0 := vice.machine, events, pending, vice.inFlight;
      if nextId >= EVENT_REQUEST_ID {
        LedgerRefl(m0, e0, f0);
        assert received == received + got;
        return Failure(OutOfIds), got, s, met, o;
      }
      var q := Request(nextId, command, collectType);
      s, met, o := Send(q, body);
      ghost var next := vice.machine;
      ghost var later;
      r, got, later := Await(q);
      ElapseTrans(next, next, vice.machine, s.after, later);
      ConcatAssoc(s.older + s.before + s.replies, s.after, later);
      s := s.(after := s.after + later);
      StreamGrows(old(received), f0, got, vice.inFlight, s);
      Concludes(m0, met, vice.machine, q, body, o, s, e0, p0, got, vice.inFlight, r, pending);
    }

    // ---------- the commands ----------

    /** Drops queued events and starts the machine. */
    method Resume() returns (r: Result<(), Error>, ghost met: Machine)
      requires Valid()
      modifies this`events, this`pending, this`nextId, this`received, vice, decoder
      ensures Onward(old(At()))
      ensures Valid() && (r == Failure(Closed) ==> !vice.open)
      ensures Logged(old(vice.machine), vice.machine, EXIT, old(nextId) >= EVENT_REQUEST_ID)
      ensures Ledger(old(vice.machine), vice.machine, [], old(vice.inFlight), events, vice.inFlight)
      ensures r.Success? ==> old(nextId) < EVENT_REQUEST_ID
                             && Drift(old(vice.machine), met) && Drift(Started(met), vice.machine)
    {
      hide Hits, EncodeAll, Take, Cap, EventsOf, RepliesOf, Drift;
      hide Elapse, ReplyFrames, Machine.Valid, OnWire, Unasked, AllEncodable;
      events := [];
      NoUnasked();
      var answer;
      ghost var got, s, o;
      answer, got, s, met, o := Transact(EXIT, [], None);
      if answer != Failure(OutOfIds) {
        ConversedLog(old(vice.machine), met, vice.machine, Request(old(nextId), EXIT, None), [], o, s);
      }
      r := if answer.Success? then Success(()) else Failure(answer.error);
    }

    /** Any command other than EXIT: it leaves the machine halted. */
    method Command(command: byte, body: seq<byte>, collectType: Option<byte>)
      returns (r: Result<Answer, Error>, ghost met: Machine, ghost o: Oracle)
      requires Valid() && command != EXIT && CollectsList(Request(0, command, collectType))
      modifies this`events, this`pending, this`nextId, this`received, vice, decoder
      ensures Onward(old(At()))
      ensures Valid() && (r == Failure(Closed) ==> !vice.open)
      ensures Logged(old(vice.machine), vice.machine, command, old(nextId) >= EVENT_REQUEST_ID)
      ensures Ledger(old(vice.machine), vice.machine, old(events), old(vice.inFlight), events, vice.inFlight)
      ensures old(received) <= received
      ensures r.Success? ==>
                && Quiet()
                && events == Cap(old(events) + EventsOf(received[|old(received)|..]))
                && r.value.final.errorCode == OK
                && o.Valid() && Drift(old(vice.machine), met)
                && vice.machine == Execute(met, command, body, o).0 && !vice.machine.running
                && old(nextId) < EVENT_REQUEST_ID
                && var q := Request(old(nextId), command, collectType);
                   var t := Take(ReplyFrames(Execute(met, command, body, o).1, q.id), q);
                   t.final == Some(r.value.final) && t.collected == r.value.collected
    {
      hide Hits, EncodeAll, Take, Cap, EventsOf, RepliesOf, Drift;
      hide Elapse, Execute, ReplyFrames, Machine.Valid, OnWire, Unasked, AllEncodable;
      ghost var got, s;
      r, got, s, met, o := Transact(command, body, collectType);
      if r != Failure(OutOfIds) {
        ConversedLog(old(vice.machine), met, vice.machine, Request(old(nextId), command, collectType), body, o, s);
        ExecuteFired(met, command, body, o);
      }
      if r.Success? {
        HaltedStays(Execute(met, command, body, o).0, vice.machine);
      }
    }

    method CheckpointSet(start: u16, end: u16, stop: bool, enabled: bool, op: byte, temporary: bool)
      returns (r: Result<Checkpoint, Error>, ghost met: Machine)
      requires Valid()
      modifies this`events, this`pending, this`nextId, this`received, vice, decoder
      ensures Onward(old(At()))
      ensures Valid() && (r == Failure(Closed) ==> !vice.open)
      ensures Logged(old(vice.machine), vice.machine, CHECKPOINT_SET, old(nextId) >= EVENT_REQUEST_ID)
      ensures r.Success? ==>
                && Quiet()
                && Drift(old(vice.machine), met) && met.nextNumber < 0x1_0000_0000
                && r.value
                   == Checkpoint(met.nextNumber, false, start, end, stop, enabled, op, temporary, 0, 0, false, 0)
                && vice.machine == met.(running := false, log := met.log + [CHECKPOINT_SET],
                                        checkpoints := met.checkpoints + [r.value], nextNumber := met.nextNumber + 1)
    {
      hide Hits, EncodeAll, Cap, EventsOf, RepliesOf, Drift, Elapse;
      hide Machine.Valid, OnWire, Unasked, AllEncodable, Execute, Take, ReplyFrames;
      var answer;
      ghost var o;
      answer, met, o := Command(CHECKPOINT_SET, SetBody(start, end, stop, enabled, op, temporary), None);
      if answer.Failure? {
        return Failure(answer.error), met;
      }
      SetAnswer(met, Request(old(nextId), CHECKPOINT_SET, None), o, start, end, stop, enabled, op, temporary);
      var parsed := ParseCheckpoint(answer.value.final.body);
      r := if parsed.Some? then Success(parsed.value) else Failure(Garbled);
    }

    method CheckpointDelete(n: u32) returns (r: Result<(), Error>, ghost met: Machine)
      requires Valid()
      modifies this`events, this`pending, this`nextId, this`received, vice, decoder
      ensures Onward(old(At()))
      ensures Valid() && (r == Failure(Closed) ==> !vice.open)
      ensures Logged(old(vice.machine), vice.machine, CHECKPOINT_DELETE, old(nextId) >= EVENT_REQUEST_ID)
      ensures r.Success? ==>
                && Quiet()
                && Drift(old(vice.machine), met)
                && vice.machine == met.(running := false, log := met.log + [CHECKPOINT_DELETE],
                                        checkpoints := Remove(met.checkpoints, n))
    {
      hide Hits, EncodeAll, Cap, EventsOf, RepliesOf, Drift, Elapse, Machine.Valid, OnWire, Unasked, AllEncodable;
      var answer;
      ghost var o;
      answer, met, o := Command(CHECKPOINT_DELETE, Le32(n), None);
      Get32OfLe32(n, [], []);
      assert [] + Le32(n) + [] == Le32(n);
      r := if answer.Success? then Success(()) else Failure(answer.error);
    }

    method CheckpointList() returns (r: Result<seq<Checkpoint>, Error>, ghost met: Machine)
      requires Valid()
      modifies this`events, this`pending, this`nextId, this`received, vice, decoder
      ensures Onward(old(At()))
      ensures Valid() && (r == Failure(Closed) ==> !vice.open)
      ensures Logged(old(vice.machine), vice.machine, CHECKPOINT_LIST, old(nextId) >= EVENT_REQUEST_ID)
      ensures Ledger(old(vice.machine), vice.machine, old(events), old(vice.inFlight), events, vice.inFlight)
      ensures r.Success? ==>
                && Quiet()
                && Drift(old(vice.machine), met)
                && r.value == met.checkpoints
                && vice.machine == met.(running := false, log := met.log + [CHECKPOINT_LIST])
    {
      hide Hits, EncodeAll, Cap, EventsOf, RepliesOf, Drift, Elapse, Machine.Valid, OnWire, Unasked, AllEncodable, Take;
      var answer;
      ghost var o;
      answer, met, o := Command(CHECKPOINT_LIST, [], Some(CHECKPOINT_GET));
      if answer.Failure? {
        return Failure(answer.error), met;
      }
      ListAnswer(met.checkpoints, Request(old(nextId), CHECKPOINT_LIST, Some(CHECKPOINT_GET)));
      var cks := ParseAll(answer.value.collected);
      r := if cks.Some? then Success(cks.value) else Failure(Garbled);
    }

    /** The register file by register id. */
    method Registers() returns (r: Result<map<byte, u16>, Error>, ghost met: Machine)
      requires Valid()
      modifies this`events, this`pending, this`nextId, this`received, vice, decoder
      ensures Onward(old(At()))
      ensures Valid() && (r == Failure(Closed) ==> !vice.open)
      ensures Logged(old(vice.machine), vice.machine, REGISTERS_GET, old(nextId) >= EVENT_REQUEST_ID)
      ensures r.Success? ==>
                && Quiet()
                && Drift(old(vice.machine), met)
                && r.value == met.File() && PC_ID in r.value && r.value[PC_ID] == met.pc
                && vice.machine == met.(running := false, log := met.log + [REGISTERS_GET])
    {
      hide Hits, EncodeAll, Cap, EventsOf, RepliesOf, Drift, Elapse, Machine.Valid, OnWire, Unasked, AllEncodable;
      var answer;
      ghost var o;
      answer, met, o := Command(REGISTERS_GET, [0], None);
      if answer.Failure? {
        return Failure(answer.error), met;
      }
      FileRoundTrip(met);
      var regs := ParseRegistersGet(answer.value.final.body);
      r := if regs.Some? then Success(regs.value) else Failure(Garbled);
    }

    /** memory_write: the bytes go to the addresses from start on and nowhere
        else. */
    method MemoryWrite(start: u16, data: seq<byte>) returns (r: Result<(), Error>, ghost met: Machine)
      requires Valid() && data != [] && start + |data| <= 0x1_0000
      modifies this`events, this`pending, this`nextId, this`received, vice, decoder
      ensures Onward(old(At()))
      ensures Valid() && (r == Failure(Closed) ==> !vice.open)
      ensures Logged(old(vice.machine), vice.machine, MEMORY_SET, old(nextId) >= EVENT_REQUEST_ID)
      ensures r.Success? ==>
                && Quiet()
                && Drift(old(vice.machine), met)
                && vice.machine == met.(running := false, log := met.log + [MEMORY_SET],
                                        store := met.store.(memory := Written(met.store.memory, start, data)))
    {
      hide Hits, EncodeAll, Cap, EventsOf, RepliesOf, Drift, Elapse;
      hide Machine.Valid, OnWire, Unasked, AllEncodable, Take, ReplyFrames;
      var answer;
      ghost var o;
      answer, met, o := Command(MEMORY_SET, MemorySetBody(start, data), None);
      MemorySetRead(start, data);
      r := if answer.Success? then Success(()) else Failure(answer.error);
    }

    /** set_register: that register takes the value, and no other changes. */
    method SetRegister(id: byte, value: u16) returns (r: Result<(), Error>, ghost met: Machine)
      requires Valid()
      modifies this`events, this`pending, this`nextId, this`received, vice, decoder
      ensures Onward(old(At()))
      ensures Valid() && (r == Failure(Closed) ==> !vice.open)
      ensures Logged(old(vice.machine), vice.machine, REGISTERS_SET, old(nextId) >= EVENT_REQUEST_ID)
      ensures r.Success? ==>
                && Quiet()
                && Drift(old(vice.machine), met)
                && vice.machine == SetOne(met, id, value).(running := false, log := met.log + [REGISTERS_SET])
    {
      hide Hits, EncodeAll, Cap, EventsOf, RepliesOf, Drift, Elapse;
      hide Machine.Valid, OnWire, Unasked, AllEncodable, Take, ReplyFrames;
      var answer;
      ghost var o;
      answer, met, o := Command(REGISTERS_SET, RegistersSetBody([(id, value)], 0), None);
      RegistersRoundTrip([(id, value)], 0);
      OneRegister(id, value);
      r := if answer.Success? then Success(()) else Failure(answer.error);
      hide RegistersSetBody, RegistersOf, RegisterFile, Assigned;
    }

    // ---------- events ----------

    /** Replies go to the pending list, events are handed back. */
    method Sift(frames: seq<Response>, sofar: seq<Response>) returns (seen: seq<Response>)
      modifies this`pending
      ensures seen == sofar + EventsOf(frames)
      ensures pending == old(pending) + RepliesOf(frames)
    {
      seen := sofar;
      for k := 0 to |frames|
        invariant seen == sofar + EventsOf(frames[..k])
        invariant pending == old(pending) + RepliesOf(frames[..k])
      {
        FilterStep(frames, k);
        if frames[k].IsEvent() {
          ConcatAssoc(sofar, EventsOf(frames[..k]), [frames[k]]);
          seen := seen + [frames[k]];
        } else {
          ConcatAssoc(old(pending), RepliesOf(frames[..k]), [frames[k]]);
          pending := pending + [frames[k]];
        }
      }
      assert frames[..|frames|] == frames;
    }

    /** Takes all queued events and those arriving within the window; with
        first, stops listening as soon as there is one.  When the connection
        closes, the queued events are gone. */
    method PollEvents(window: nat, first: bool)
      returns (r: Result<seq<Response>, Error>, ghost got: seq<Response>, ghost sent: seq<Response>)
      requires Valid()
      modifies this`events, this`pending, this`received, vice, decoder
      ensures Onward(old(At()))
      ensures Valid() && events == []
      ensures Elapse(old(vice.machine), vice.machine, sent)
      ensures old(vice.inFlight) + sent == got + vice.inFlight && received == old(received) + got
      ensures r.Success? ==>
                r.value == old(events) + EventsOf(got) && pending == old(pending) + RepliesOf(got) && Unasked(r.value)
      ensures r.Success? && !(first && r.value != []) ==> vice.clock >= old(vice.clock) + window
      ensures r.Failure? ==> r.error == Closed && !vice.open
    {
      hide Hits, EncodeAll, Cap, EventsOf, RepliesOf, Drift, Elapse, Machine.Valid, OnWire, Unasked, AllEncodable;
      var seen := events;
      events := [];
      NoUnasked();
      got, sent := [], [];
      ghost var was, e0, p0, f0 := vice.machine, seen, pending, vice.inFlight;
      NothingSeen(was, e0, p0, f0);
      var start := vice.Now();
      var deadline := start + window;
      var now := start;
      while !(first && seen != []) && now < deadline
        invariant Valid() && events == [] && Unasked(seen) && (vice.open ==> old(vice.open))
        invariant Elapse(was, vice.machine, sent)
        invariant f0 + sent == got + vice.inFlight && received == old(received) + got
        invariant seen == e0 + EventsOf(got) && pending == p0 + RepliesOf(got)
        invariant old(vice.clock) <= now <= vice.clock
        decreases deadline - now
      {
        ghost var m1, p1, f1 := vice.machine, pending, vice.inFlight;
        var data;
        ghost var more;
        data, more := Recv(if deadline - now < LEAST then LEAST else deadline - now);
        ElapseTrans(was, m1, vice.machine, sent, more);
        ConcatAssoc(f0, sent, more);
        ConcatAssoc(got, f1, more);
        sent := sent + more;
        if data.HungUp? {
          StreamExtends(old(received), f0, got, vice.inFlight, sent);
          return Failure(Closed), got, sent;
        }
        if data.Silence? {
          break;
        }
        ghost var frames := data.frames;
        ConcatAssoc(got, frames, vice.inFlight);
        SiftedMembers(seen, p1, frames, nextId);
        seen := Sift(data.frames, seen);
        EventsOfAppend(got, frames);
        RepliesOfAppend(got, frames);
        ConcatAssoc(e0, EventsOf(got), EventsOf(frames));
        ConcatAssoc(p0, RepliesOf(got), RepliesOf(frames));
        ConcatAssoc(old(received), got, frames);
        got := got + frames;
        now := vice.Now();
      }
      StreamExtends(old(received), f0, got, vice.inFlight, sent);
      r := Success(seen);
    }

    /** Waits for a STOPPED event and reports it with the checkpoint whose hit
        was seen before it.  Events after it in the same poll are dropped. */
    method WaitForStop(window: nat) returns (r: Result<Option<StopInfo>, Error>)
      requires Valid()
      modifies this`events, this`pending, this`received, vice, decoder
      ensures Onward(old(At()))
      ensures Valid() && (r.Failure? ==> r.error == Closed && !vice.open)
      ensures r == Success(None) ==> vice.clock >= old(vice.clock) + window
      ensures Drift(old(vice.machine), vice.machine)
      ensures Ledger(old(vice.machine), vice.machine, old(events), old(vice.inFlight), events, vice.inFlight)
      ensures old(received) <= received
      ensures r.Success? && r.value.Some? ==>
                events == [] && Tells(old(events) + EventsOf(received[|old(received)|..]), r.value.value)
      ensures r == Success(None) ==>
                || (events == [] && Stopless(old(events) + EventsOf(received[|old(received)|..])))
                || (events == old(events) && received == old(received))
      ensures r.Success? && r.value.Some? && r.value.value.checkpoint.Some? ==>
                Bumped(old(vice.machine), vice.machine, old(events), old(vice.inFlight), events, vice.inFlight,
                       r.value.value.checkpoint.value)
    {
      hide Hits, EncodeAll, Cap, EventsOf, RepliesOf, Drift, Elapse, Unasked, Stopless, Tells, LastHit, FeedAll;
      hide Reported, Heard, Ledger, Bumped, Forward, MonitorClient.Valid, MonitorClient.InStep, MonitorClient.Stream;
      hide Answered, Scanned, Conversed, Issued, Take, Own, Others, LastHitIs, StopsAt, Vice.Valid, OnWire;
      ghost var m0, e0, f0, at0 := vice.machine, events, vice.inFlight, At();
      var start := Clock();
      var deadline := start + window;
      var checkpoint: Option<u32> := None;
      ghost var seen, heard: seq<Response> := [], [];
      ReportedNone(m0, e0, f0);
      DriftRefl(m0);
      NothingHeard(e0, received);
      while true
        invariant Valid() && Forward(at0, At()) && start <= vice.clock
        invariant Drift(m0, vice.machine)
        invariant Reported(m0, vice.machine, e0, f0, events, vice.inFlight, checkpoint)
        invariant received == old(received) + heard && Heard(seen, events, e0, heard, checkpoint)
        decreases deadline - vice.clock
      {
        ghost var at1 := At();
        var now := Clock();
        ForwardTrans(at0, at1, At());
        if now >= deadline {
          ReportedLedger(m0, vice.machine, e0, f0, events, vice.inFlight, checkpoint);
          HeardNone(seen, events, e0, heard, checkpoint);
          assert received[|old(received)|..] == heard;
          return Success(None);
        }
        ghost var m1, e1, f1, at2 := vice.machine, events, vice.inFlight, At();
        var polled;
        ghost var got, sent;
        polled, got, sent := PollEvents(if deadline - now < POLL then deadline - now else POLL, true);
        ForwardTrans(at0, at2, At());
        ElapseDrift(m1, vice.machine, sent);
        DriftTrans(m0, m1, vice.machine);
        if polled.Failure? {
          PollLost(m0, m1, vice.machine, e0, f0, e1, f1, got, vice.inFlight, sent, checkpoint);
          return Failure(polled.error);
        }
        ghost var earlier := checkpoint;
        var pc;
        ghost var k;
        checkpoint, pc, k := FirstStop(polled.value, checkpoint);
        PollHits(m0, m1, vice.machine, e0, f0, e1, f1, got, vice.inFlight, sent, polled.value, k, earlier);
        ConcatAssoc(old(received), heard, got);
        assert received[|old(received)|..] == heard + got;
        if pc.Some? {
          HeardStop(seen, e1, e0, heard, earlier, got, polled.value, k - 1);
          return Success(Some(StopInfo(pc.value, checkpoint)));
        }
        HeardMore(seen, e1, e0, heard, earlier, got, polled.value);
        seen, heard := seen + polled.value, heard + got;
      }
    }
  }
}
