/** The emulator seen through its monitor connection: an explicit
    nondeterministic step machine.  It is the environment the client runs
    against, so everything it may do between two client actions is a choice. */
module Vice {
  import opened Wrappers
  import opened Bytes
  import opened Protocol

  /** The register ids VICE gives the program counter and the stack pointer. */
  const PC_ID: byte := 3
  const SP_ID: byte := 4

  /** The registers besides the program counter; the stack pointer is a byte. */
  type Registers =
    r: seq<(byte, u16)> | |r| < 0xFF && forall p | p in r :: p.0 != PC_ID && (p.0 == SP_ID ==> p.1 < 0x100)

  type Ram = m: seq<byte> | |m| == 0x1_0000 witness seq(0x1_0000, _ => 0)

  datatype Store = Store(registers: Registers, memory: Ram)

  /** Where the machine was when it was started. */
  datatype Start = Start(pc: u16, store: Store)

  /** The emulated machine: run state, program counter, registers and memory,
      checkpoint table, and records of every checkpoint stop, every command
      processed and every start so far. */
  datatype Machine = Machine(running: bool, pc: u16, store: Store, checkpoints: seq<Checkpoint>, nextNumber: nat,
                             fired: multiset<u32>, log: seq<byte>, starts: seq<Start>) {
    ghost predicate Valid() {
      && (forall c | c in checkpoints :: c.number < nextNumber && c.hitCount <= fired[c.number] && (c.hit ==> !running))
      && (forall n: u32 | n in fired :: n < nextNumber)
    }

    /** The register file by id, the program counter included. */
    function File(): map<byte, u16> {
      RegisterFile(store.registers + [(PC_ID, pc)], map[])
    }
  }

  function Find(cks: seq<Checkpoint>, n: u32): (r: Option<Checkpoint>)
    ensures r.Some? ==> r.value in cks && r.value.number == n
    ensures r.None? ==> forall c | c in cks :: c.number != n
  {
    if cks == [] then None else if cks[0].number == n then Some(cks[0]) else Find(cks[1..], n)
  }

  // ---------- time passing: an optional checkpoint stop ----------

  function Marked(c: Checkpoint, ns: seq<u32>): Checkpoint {
    if c.number in ns then c.(hit := true, hitCount := (c.hitCount + 1) % 0x1_0000_0000) else c
  }

  function MarkHits(cks: seq<Checkpoint>, ns: seq<u32>): seq<Checkpoint> {
    if cks == [] then [] else [Marked(cks[0], ns)] + MarkHits(cks[1..], ns)
  }

  function ClearHits(cks: seq<Checkpoint>): seq<Checkpoint> {
    if cks == [] then [] else [cks[0].(hit := false)] + ClearHits(cks[1..])
  }

  function Remove(cks: seq<Checkpoint>, n: u32): seq<Checkpoint> {
    if cks == [] then []
    else (if cks[0].number == n then [] else [cks[0]]) + Remove(cks[1..], n)
  }

  lemma FindMarkHits(cks: seq<Checkpoint>, ns: seq<u32>, n: u32)
    ensures Find(MarkHits(cks, ns), n) == match Find(cks, n) case None => None case Some(c) => Some(Marked(c, ns))
  {
  }

  lemma FindClearHits(cks: seq<Checkpoint>, n: u32)
    ensures Find(ClearHits(cks), n) == match Find(cks, n) case None => None case Some(c) => Some(c.(hit := false))
  {
  }

  lemma FindRemove(cks: seq<Checkpoint>, n: u32, m: u32)
    ensures Find(Remove(cks, n), m) == if m == n then None else Find(cks, m)
  {
    if cks != [] && cks[0].number == n {
      assert Remove(cks, n) == Remove(cks[1..], n);
    }
  }

  lemma FindAppend(cks: seq<Checkpoint>, c: Checkpoint, n: u32)
    ensures Find(cks + [c], n) == if Find(cks, n).Some? then Find(cks, n) else if c.number == n then Some(c) else None
  {
    if cks == [] {
      assert cks + [c] == [c];
    } else {
      assert (cks + [c])[1..] == cks[1..] + [c];
    }
  }

  lemma MembersMarkHits(cks: seq<Checkpoint>, ns: seq<u32>)
    ensures forall c | c in MarkHits(cks, ns) :: exists d :: d in cks && c == Marked(d, ns)
  {
    if cks != [] {
      MembersMarkHits(cks[1..], ns);
      forall c | c in MarkHits(cks, ns) ensures exists d :: d in cks && c == Marked(d, ns) {
        if c in MarkHits(cks[1..], ns) {
          var d :| d in cks[1..] && c == Marked(d, ns);
          assert d in cks;
        } else {
          assert cks[0] in cks;
        }
      }
    }
  }

  lemma MembersClearHits(cks: seq<Checkpoint>)
    ensures forall c | c in ClearHits(cks) :: exists d :: d in cks && c == d.(hit := false)
  {
    if cks != [] {
      MembersClearHits(cks[1..]);
      forall c | c in ClearHits(cks) ensures exists d :: d in cks && c == d.(hit := false) {
        if c in ClearHits(cks[1..]) {
          var d :| d in cks[1..] && c == d.(hit := false);
          assert d in cks;
        } else {
          assert cks[0] in cks;
        }
      }
    }
  }

  lemma MembersRemove(cks: seq<Checkpoint>, n: u32)
    ensures forall c | c in Remove(cks, n) :: c in cks
  {
  }

  /** Whether a checkpoint can stop the machine at pc.  The exec bit (4) asks
      for the pc in its range; the load and store bits ask for an access to its
      range, which an instruction anywhere may make. */
  predicate Covers(c: Checkpoint, pc: u16) {
    c.stop && c.enabled && (c.op % 4 != 0 || (c.op / 4 % 2 == 1 && c.start <= pc <= c.end))
  }

  predicate Distinct(ns: seq<u32>) {
    forall i, j | 0 <= i < j < |ns| :: ns[i] != ns[j]
  }

  /** The running machine may stop at pc with the checkpoints ns. */
  predicate CanFire(m: Machine, pc: u16, ns: seq<u32>) {
    && m.running && ns != [] && Distinct(ns)
    && (forall n | n in ns :: var c := Find(m.checkpoints, n); c.Some? && Covers(c.value, pc))
  }

  function Fire(m: Machine, pc: u16, store: Store, ns: seq<u32>): Machine {
    m.(running := false, pc := pc, store := store,
       checkpoints := MarkHits(m.checkpoints, ns), fired := m.fired + multiset(ns))
  }

  /** What can become of the machine while no command arrives: it stays as it
      is (a running one computes on), or it runs into checkpoints once. */
  ghost predicate Drift(a: Machine, b: Machine) {
    || a == b
    || (a.running && b == a.(pc := b.pc, store := b.store))
    || (exists ns: seq<u32> {:trigger CanFire(a, b.pc, ns)} :: CanFire(a, b.pc, ns) && b == Fire(a, b.pc, b.store, ns))
  }

  lemma DistinctCount(ns: seq<u32>, n: u32)
    requires Distinct(ns)
    ensures multiset(ns)[n] == if n in ns then 1 else 0
  {
    if ns != [] {
      assert ns == [ns[0]] + ns[1..];
      DistinctCount(ns[1..], n);
    }
  }

  /** Drift seen from one checkpoint: it is untouched, or it stopped the
      machine, inside its range if it is an exec checkpoint alone, exactly
      once. */
  lemma DriftOne(a: Machine, b: Machine, n: u32)
    requires Drift(a, b)
    ensures b.log == a.log && b.starts == a.starts && b.nextNumber == a.nextNumber
    ensures Find(b.checkpoints, n).Some? <==> Find(a.checkpoints, n).Some?
    ensures || (b.fired[n] == a.fired[n] && Find(b.checkpoints, n) == Find(a.checkpoints, n))
            || (&& a.running && !b.running && b.fired[n] == a.fired[n] + 1 && Find(a.checkpoints, n).Some?
                && var c := Find(a.checkpoints, n).value;
                && Covers(c, b.pc)
                && Find(b.checkpoints, n) == Some(c.(hit := true, hitCount := (c.hitCount + 1) % 0x1_0000_0000)))
  {
    if !(a == b || (a.running && b == a.(pc := b.pc, store := b.store))) {
      var ns :| CanFire(a, b.pc, ns) && b == Fire(a, b.pc, b.store, ns);
      FindMarkHits(a.checkpoints, ns, n);
      DistinctCount(ns, n);
    }
  }

  lemma DriftValid(a: Machine, b: Machine)
    requires a.Valid() && Drift(a, b)
    ensures b.Valid()
  {
    if !(a == b || (a.running && b == a.(pc := b.pc, store := b.store))) {
      var ns :| CanFire(a, b.pc, ns) && b == Fire(a, b.pc, b.store, ns);
      MembersMarkHits(a.checkpoints, ns);
      forall c | c in b.checkpoints
        ensures c.number < b.nextNumber && c.hitCount <= b.fired[c.number]
      {
        var d :| d in a.checkpoints && c == Marked(d, ns);
        DistinctCount(ns, c.number);
      }
      forall n: u32 | n in b.fired ensures n < b.nextNumber {
        if n !in a.fired {
          assert n in ns;
        }
      }
    }
  }

  lemma DriftTrans(a: Machine, b: Machine, c: Machine)
    requires Drift(a, b) && Drift(b, c)
    ensures Drift(a, c)
  {
    if !(b == c || (b.running && c == b.(pc := c.pc, store := c.store))) {
      var ns :| CanFire(b, c.pc, ns) && c == Fire(b, c.pc, c.store, ns);
      assert CanFire(a, c.pc, ns);
    }
  }

  // ---------- the events a stop emits ----------

  function Event(responseType: byte, body: seq<byte>): Response {
    Response(responseType, OK, EVENT_REQUEST_ID, body)
  }

  /** CHECKPOINT_GET with the hit flag, sent unasked: a checkpoint stopped the
      machine. */
  predicate IsHit(f: Response) {
    f.IsEvent() && f.responseType == CHECKPOINT_GET && |f.body| > 4 && f.body[4] != 0
  }

  function HitNumber(f: Response): u32
    requires IsHit(f)
  {
    Get32(f.body, 0)
  }

  function Hits(frames: seq<Response>, n: u32): nat {
    if frames == [] then 0
    else (if IsHit(frames[0]) && HitNumber(frames[0]) == n then 1 else 0) + Hits(frames[1..], n)
  }

  lemma {:induction false} HitsAppend(a: seq<Response>, b: seq<Response>, n: u32)
    ensures Hits(a + b, n) == Hits(a, n) + Hits(b, n)
  {
    if a == [] {
      assert a + b == b;
    } else {
      assert (a + b)[1..] == a[1..] + b;
      HitsAppend(a[1..], b, n);
    }
  }

  lemma NoHits(frames: seq<Response>, n: u32)
    requires forall f | f in frames :: !IsHit(f)
    ensures Hits(frames, n) == 0
  {
  }

  /** Event bodies are as long as their readers expect. */
  predicate GoodEvent(f: Response) {
    && f.Encodable()
    && (f.responseType == CHECKPOINT_GET ==> |f.body| >= CHECKPOINT_INFO_SIZE)
    && (f.responseType == STOPPED ==> |f.body| >= 2)
  }

  /** Frames VICE sends unasked. */
  ghost predicate Unasked(frames: seq<Response>) {
    forall f | f in frames :: f.IsEvent() && GoodEvent(f)
  }

  /** Any event except a checkpoint hit may be sent at any time: the bare
      STOPPED of a command's halt, RESUMED, JAM, a checkpoint that did not hit. */
  predicate Noise(frames: seq<Response>) {
    forall f | f in frames :: f.IsEvent() && GoodEvent(f) && !IsHit(f)
  }

  function HitEvents(cks: seq<Checkpoint>, ns: seq<u32>): seq<Response>
    requires forall n | n in ns :: Find(cks, n).Some?
  {
    if ns == [] then []
    else [Event(CHECKPOINT_GET, CheckpointBody(Find(cks, ns[0]).value))] + HitEvents(cks, ns[1..])
  }

  lemma HitEventIsHit(c: Checkpoint)
    requires c.hit
    ensures var f := Event(CHECKPOINT_GET, CheckpointBody(c));
            f.IsEvent() && GoodEvent(f) && IsHit(f) && HitNumber(f) == c.number
  {
    CheckpointRoundTrip(c);
  }

  lemma {:induction false} HitEventsReport(cks: seq<Checkpoint>, ns: seq<u32>, n: u32)
    requires forall k | k in ns :: Find(cks, k).Some? && Find(cks, k).value.hit
    ensures Hits(HitEvents(cks, ns), n) == multiset(ns)[n]
    ensures Unasked(HitEvents(cks, ns))
  {
    if ns != [] {
      var c := Find(cks, ns[0]).value;
      HitEventIsHit(c);
      HitEventsReport(cks, ns[1..], n);
      assert ns == [ns[0]] + ns[1..];
      hide CheckpointBody, IsHit, GoodEvent, Find;
    }
  }

  function StopEvents(m: Machine, pc: u16, ns: seq<u32>): seq<Response>
    requires CanFire(m, pc, ns)
  {
    StillThere(m.checkpoints, ns, ns);
    HitEvents(MarkHits(m.checkpoints, ns), ns) + [Event(STOPPED, Le16(pc))]
  }

  lemma {:induction false} StillThere(cks: seq<Checkpoint>, ns: seq<u32>, some: seq<u32>)
    requires forall n | n in some :: Find(cks, n).Some? && n in ns
    ensures forall n | n in some :: Find(MarkHits(cks, ns), n).Some? && Find(MarkHits(cks, ns), n).value.hit
  {
    forall n | n in some
      ensures Find(MarkHits(cks, ns), n).Some? && Find(MarkHits(cks, ns), n).value.hit
    {
      FindMarkHits(cks, ns, n);
    }
  }

  /** A stop is reported once for every checkpoint that caused it. */
  lemma {:induction false} StopReport(m: Machine, pc: u16, store: Store, ns: seq<u32>, n: u32)
    requires CanFire(m, pc, ns)
    ensures Unasked(StopEvents(m, pc, ns))
    ensures Hits(StopEvents(m, pc, ns), n) + m.fired[n] == Fire(m, pc, store, ns).fired[n]
  {
    var cks := MarkHits(m.checkpoints, ns);
    StillThere(m.checkpoints, ns, ns);
    HitEventsReport(cks, ns, n);
    HitsAppend(HitEvents(cks, ns), [Event(STOPPED, Le16(pc))], n);
  }

  // ---------- commands ----------

  datatype Reply = Reply(responseType: byte, errorCode: byte, body: seq<byte>)

  /** What VICE answers where a command's effect is not modelled: an error code
      and body, and the pc, registers and memory it leaves behind. */
  datatype Oracle = Oracle(errorCode: byte, body: seq<byte>, pc: u16, store: Store) {
    predicate Valid() {
      |body| < 0x1_0000_0000
    }
  }

  // ---------- registers and memory ----------

  const MEM_HEADER_SIZE := 8

  function MemHeader(start: u16, end: u16): (h: seq<byte>)
    ensures |h| == MEM_HEADER_SIZE
  {
    [0] + Le16(start) + Le16(end) + [0] + Le16(0)
  }

  /** memory_set_body: the bytes for the addresses from start on. */
  function MemorySetBody(start: u16, data: seq<byte>): seq<byte>
    requires data != [] && start + |data| <= 0x1_0000
  {
    MemHeader(start, start + |data| - 1) + data
  }

  /** Whether a body names a range and carries one byte for each address. */
  predicate GoodMemorySet(body: seq<byte>) {
    && |body| >= MEM_HEADER_SIZE && Get16(body, 1) <= Get16(body, 3)
    && |body| == MEM_HEADER_SIZE + Get16(body, 3) - Get16(body, 1) + 1
  }

  function Written(memory: Ram, start: u16, data: seq<byte>): Ram
    requires start + |data| <= 0x1_0000
  {
    memory[..start] + data + memory[start + |data|..]
  }

  /** Each register named takes its new value, the stack pointer its low byte. */
  function Assigned(registers: Registers, values: map<byte, u16>): (r: Registers)
    ensures |r| == |registers|
    ensures forall i | 0 <= i < |r| :: r[i].0 == registers[i].0
  {
    seq(|registers|, i requires 0 <= i < |registers| => NewValue(registers[i], values))
  }

  function NewValue(register: (byte, u16), values: map<byte, u16>): (p: (byte, u16))
    requires register.0 == SP_ID ==> register.1 < 0x100
    ensures p.0 == register.0 && (p.0 == SP_ID ==> p.1 < 0x100)
  {
    var (id, value) := register;
    (id, if id !in values then value else if id == SP_ID then values[id] % 0x100 else values[id])
  }

  function ListReplies(cks: seq<Checkpoint>): seq<Reply> {
    if cks == [] then [] else [Reply(CHECKPOINT_GET, OK, CheckpointBody(cks[0]))] + ListReplies(cks[1..])
  }

  function SetBody(start: u16, end: u16, stop: bool, enabled: bool, op: byte, temporary: bool): seq<byte> {
    Le16(start) + Le16(end) + [Flag(stop), Flag(enabled), op, Flag(temporary)]
  }

  /** Processing a command: the machine afterwards and the frames answering it.
      Every command leaves the machine halted except EXIT, which clears the hit
      flags and starts it. */
  function Execute(m: Machine, command: byte, body: seq<byte>, o: Oracle): (Machine, seq<Reply>)
    requires o.Valid()
  {
    var h := m.(running := false, log := m.log + [command]);
    if command == EXIT then
      (h.(running := true, checkpoints := ClearHits(m.checkpoints), starts := m.starts + [Start(m.pc, m.store)]),
       [Reply(EXIT, OK, [])])
    else if command == CHECKPOINT_SET then
      if |body| < 8 || m.nextNumber >= 0x1_0000_0000 then (h, [Reply(CHECKPOINT_SET, GENERAL_FAILURE, [])])
      else
        var c := Checkpoint(m.nextNumber, false, Get16(body, 0), Get16(body, 2), body[4] != 0, body[5] != 0, body[6],
                            body[7] != 0, 0, 0, false, 0);
        (h.(checkpoints := m.checkpoints + [c], nextNumber := m.nextNumber + 1),
          [Reply(CHECKPOINT_GET, OK, CheckpointBody(c))])
    else if command == CHECKPOINT_DELETE then
      if |body| < 4 || Find(m.checkpoints, Get32(body, 0)).None?
      then (h, [Reply(CHECKPOINT_DELETE, OBJECT_MISSING, [])])
      else (h.(checkpoints := Remove(m.checkpoints, Get32(body, 0))), [Reply(CHECKPOINT_DELETE, OK, [])])
    else if command == CHECKPOINT_LIST then
      (h, ListReplies(m.checkpoints) + [Reply(CHECKPOINT_LIST, OK, Le32(|m.checkpoints| % 0x1_0000_0000))])
    else if command == REGISTERS_GET then
      (h, [Reply(REGISTERS_GET, OK, RegistersBody(m.store.registers + [(PC_ID, m.pc)]))])
    else if command == REGISTERS_SET then
      if body == [] || RegistersOf(body[1..]).None? then (h, [Reply(REGISTERS_SET, INVALID_LENGTH, [])])
      else
        var values := RegistersOf(body[1..]).value;
        (h.(pc := if PC_ID in values then values[PC_ID] else m.pc,
            store := m.store.(registers := Assigned(m.store.registers, values))), [Reply(REGISTERS_SET, OK, [])])
    else if command == MEMORY_SET then
      if !GoodMemorySet(body) then (h, [Reply(MEMORY_SET, INVALID_LENGTH, [])])
      else
        var memory := Written(m.store.memory, Get16(body, 1), body[MEM_HEADER_SIZE..]);
        (h.(store := m.store.(memory := memory)), [Reply(MEMORY_SET, OK, [])])
    else
      (h.(pc := o.pc, store := o.store), [Reply(command, o.errorCode, o.body)])
  }

  lemma ExecuteValid(m: Machine, command: byte, body: seq<byte>, o: Oracle)
    requires m.Valid() && o.Valid()
    ensures Execute(m, command, body, o).0.Valid()
  {
    MembersClearHits(m.checkpoints);
    if command == CHECKPOINT_DELETE && |body| >= 4 {
      MembersRemove(m.checkpoints, Get32(body, 0));
    }
  }

  /** EXIT (0xAA), and no other command, starts the machine, from where it is and
      with every hit flag cleared; every other leaves it halted, and only setting
      (0x12) and deleting (0x13) change the checkpoint table. */
  lemma OnlyExitStarts(m: Machine, command: byte, body: seq<byte>, o: Oracle)
    requires o.Valid()
    ensures var n := Execute(m, command, body, o).0;
            && n.log == m.log + [command] && n.fired == m.fired && (n.running <==> command == 0xAA)
            && (command == 0xAA ==>
                  && (n.pc, n.store, n.starts) == (m.pc, m.store, m.starts + [Start(m.pc, m.store)])
                  && |n.checkpoints| == |m.checkpoints|
                  && forall i | 0 <= i < |n.checkpoints| :: n.checkpoints[i] == m.checkpoints[i].(hit := false))
            && (command != 0xAA ==> n.starts == m.starts)
            && (command !in {0xAA, 0x12, 0x13} ==> n.checkpoints == m.checkpoints)
  {
    ClearedOneByOne(m.checkpoints);
  }

  lemma {:induction false} ClearedOneByOne(cks: seq<Checkpoint>)
    ensures |ClearHits(cks)| == |cks|
    ensures forall i | 0 <= i < |cks| :: ClearHits(cks)[i] == cks[i].(hit := false)
  {
    if cks != [] {
      ClearedOneByOne(cks[1..]);
    }
  }

  function ReplyFrames(replies: seq<Reply>, rid: u32): seq<Response> {
    if replies == [] then []
    else [Response(replies[0].responseType, replies[0].errorCode, rid, replies[0].body)]
         + ReplyFrames(replies[1..], rid)
  }

  lemma {:induction false} ReplyFramesAppend(a: seq<Reply>, b: seq<Reply>, rid: u32)
    ensures ReplyFrames(a + b, rid) == ReplyFrames(a, rid) + ReplyFrames(b, rid)
  {
    if a == [] {
      assert a + b == b;
    } else {
      assert (a + b)[1..] == a[1..] + b;
      ReplyFramesAppend(a[1..], b, rid);
    }
  }

  lemma ReplyFramesShape(replies: seq<Reply>, rid: u32)
    requires forall r | r in replies :: |r.body| < 0x1_0000_0000
    ensures |ReplyFrames(replies, rid)| == |replies|
    ensures forall f | f in ReplyFrames(replies, rid) :: f.requestId == rid && f.Encodable()
  {
  }

  lemma ListRepliesShape(cks: seq<Checkpoint>)
    ensures forall r | r in ListReplies(cks) :: r.responseType == CHECKPOINT_GET && |r.body| == CHECKPOINT_INFO_SIZE
  {
  }

  lemma RegisterItemsSize(regs: seq<(byte, u16)>)
    ensures |RegisterItems(regs)| == 4 * |regs|
  {
  }

  lemma ExecuteRepliesShape(m: Machine, command: byte, body: seq<byte>, o: Oracle)
    requires o.Valid()
    ensures forall r | r in Execute(m, command, body, o).1 :: |r.body| < 0x1_0000_0000
    ensures Execute(m, command, body, o).1 != []
  {
    ListRepliesShape(m.checkpoints);
    RegisterItemsSize(m.store.registers + [(PC_ID, m.pc)]);
  }

  lemma DriftToStop(m: Machine, pc: u16, store: Store, ns: seq<u32>)
    requires m.Valid() && CanFire(m, pc, ns)
    ensures Drift(m, Fire(m, pc, store, ns)) && Fire(m, pc, store, ns).Valid()
  {
    assert CanFire(m, Fire(m, pc, store, ns).pc, ns);
    DriftValid(m, Fire(m, pc, store, ns));
  }

  /** A stretch of time without a command: the machine drifted, and each stop
      of checkpoint n is reported by one hit for n. */
  ghost predicate Elapse(a: Machine, b: Machine, sent: seq<Response>) {
    && Drift(a, b)
    && Unasked(sent)
    && (forall n: u32 :: Hits(sent, n) + a.fired[n] == b.fired[n])
  }

  lemma ElapseNoise(a: Machine, b: Machine, noise: seq<Response>)
    requires Drift(a, b) && a.fired == b.fired && Noise(noise)
    ensures Elapse(a, b, noise)
  {
    forall n: u32 ensures Hits(noise, n) == 0 {
      NoHits(noise, n);
    }
  }

  lemma ElapseStop(m: Machine, pc: u16, store: Store, ns: seq<u32>)
    requires m.Valid() && CanFire(m, pc, ns)
    ensures Elapse(m, Fire(m, pc, store, ns), StopEvents(m, pc, ns)) && Fire(m, pc, store, ns).Valid()
  {
    DriftToStop(m, pc, store, ns);
    StopReport(m, pc, store, ns, 0);
    forall n: u32 ensures Hits(StopEvents(m, pc, ns), n) + m.fired[n] == Fire(m, pc, store, ns).fired[n] {
      StopReport(m, pc, store, ns, n);
    }
  }

  lemma ElapseTrans(a: Machine, b: Machine, c: Machine, s: seq<Response>, t: seq<Response>)
    requires Elapse(a, b, s) && Elapse(b, c, t)
    ensures Elapse(a, c, s + t)
  {
    DriftTrans(a, b, c);
    forall n: u32 ensures Hits(s + t, n) + a.fired[n] == c.fired[n] {
      HitsAppend(s, t, n);
    }
  }

  lemma ExecuteFrames(m: Machine, command: byte, body: seq<byte>, o: Oracle, rid: u32)
    requires m.Valid() && o.Valid() && rid != EVENT_REQUEST_ID
    ensures Execute(m, command, body, o).0.Valid()
    ensures forall f | f in ReplyFrames(Execute(m, command, body, o).1, rid) ::
            f.requestId == rid && f.Encodable() && !f.IsEvent()
  {
    ExecuteValid(m, command, body, o);
    ExecuteRepliesShape(m, command, body, o);
    ReplyFramesShape(Execute(m, command, body, o).1, rid);
  }

  /** Frames that can be on the wire. */
  ghost predicate OnWire(frames: seq<Response>) {
    forall f | f in frames :: f.Encodable() && (f.IsEvent() ==> GoodEvent(f))
  }

  lemma OnWireEncodable(frames: seq<Response>)
    requires OnWire(frames)
    ensures AllEncodable(frames)
  {
  }

  /** The bare STOPPED of the halt a command causes in a running machine. */
  function HaltNoise(m: Machine): (sent: seq<Response>)
    ensures Noise(sent)
  {
    if m.running then [Event(STOPPED, Le16(m.pc))] else []
  }

  /** The RESUMED of the restart EXIT causes. */
  function StartNoise(command: byte): (sent: seq<Response>)
    ensures Noise(sent)
  {
    if command == EXIT then [Event(RESUMED, [])] else []
  }

  lemma SendTwice(f: seq<Response>, w: seq<byte>, a: seq<Response>, b: seq<Response>, c: seq<Response>,
                  d: seq<Response>)
    requires AllEncodable(a) && AllEncodable(b + c + d)
    ensures AllEncodable(a + b + c + d)
    ensures f + a + (b + c + d) == f + (a + b + c + d)
    ensures w + EncodeAll(a) + EncodeAll(b + c + d) == w + EncodeAll(a + b + c + d)
  {
    ConcatAssoc(a, b, c);
    ConcatAssoc(a, b + c, d);
    ConcatAssoc(f, a, b + c + d);
    EncodeAllAppend(a, b + c + d);
    ConcatAssoc(w, EncodeAll(a), EncodeAll(b + c + d));
  }

  // ---------- the connection ----------

  class Vice {
    var machine: Machine
    /** Bytes sent and not yet received, and the frames they complete
        together with what the receiver has buffered. */
    var wire: seq<byte>
    ghost var inFlight: seq<Response>
    /** Whether the connection is still open; once closed it stays so. */
    var open: bool
    /** The clock every reading of which is later than the one before. */
    var clock: nat

    ghost predicate Valid()
      reads this
    {
      machine.Valid() && OnWire(inFlight)
    }

    method Emit(frames: seq<Response>)
      requires OnWire(frames) && OnWire(inFlight)
      modifies this`wire, this`inFlight
      ensures OnWire(inFlight)
      ensures AllEncodable(frames)
      ensures inFlight == old(inFlight) + frames && wire == old(wire) + EncodeAll(frames)
    {
      OnWireEncodable(frames);
      wire := wire + EncodeAll(frames);
      inFlight := inFlight + frames;
    }

    /** time.monotonic() */
    method Now() returns (t: nat)
      modifies this`clock
      ensures t == clock > old(clock)
    {
      var elapsed: nat :| 0 <= elapsed;
      clock := clock + 1 + elapsed;
      t := clock;
    }

    /** So much time passes at least. */
    method Wait(least: nat)
      modifies this`clock
      ensures clock >= old(clock) + least
    {
      var longer: nat :| 0 <= longer;
      clock := clock + least + longer;
    }

    /** Time passes without a command: noise is sent, a running machine may
        move on, and it may run into checkpoints. */
    method Slice() returns (ghost added: seq<Response>)
      requires Valid()
      modifies this`machine, this`wire, this`inFlight, this`open
      ensures Valid() && (open ==> old(open))
      ensures Elapse(old(machine), machine, added)
      ensures AllEncodable(added)
      ensures inFlight == old(inFlight) + added && wire == old(wire) + EncodeAll(added)
    {
      ghost var start := machine;
      assert Noise([]);
      var sent: seq<Response> :| Noise(sent);
      var pc: u16 :| 0 <= pc;
      assert |machine.store.memory| == 0x1_0000;
      var store: Store :| |store.memory| == 0x1_0000;
      if machine.running {
        machine := machine.(pc := pc, store := store);
      }
      var stays: bool :| stays || !stays;
      open := open && stays;
      ElapseNoise(start, machine, sent);
      var stopping: seq<u32> :| stopping == [] || CanFire(machine, pc, stopping);
      if stopping != [] {
        ElapseStop(machine, pc, store, stopping);
        ElapseTrans(start, machine, Fire(machine, pc, store, stopping), sent, StopEvents(machine, pc, stopping));
        sent := sent + StopEvents(machine, pc, stopping);
        machine := Fire(machine, pc, store, stopping);
      }
      Emit(sent);
      added := sent;
    }

    /** The command is read, processed and answered. */
    method Answer(command: byte, body: seq<byte>, rid: u32)
      returns (ghost halt: seq<Response>, ghost replies: seq<Response>, ghost after: seq<Response>, ghost o: Oracle)
      requires Valid() && rid != EVENT_REQUEST_ID
      modifies this`machine, this`wire, this`inFlight
      ensures Valid()
      ensures o.Valid() && Elapse(old(machine), old(machine), halt) && Elapse(machine, machine, after)
      ensures machine == Execute(old(machine), command, body, o).0
      ensures replies == ReplyFrames(Execute(old(machine), command, body, o).1, rid)
      ensures AllEncodable(halt + replies + after)
      ensures inFlight == old(inFlight) + (halt + replies + after)
      ensures wire == old(wire) + EncodeAll(halt + replies + after)
    {
      var stopped := HaltNoise(machine);
      var started := StartNoise(command);
      assert Oracle(OK, [], 0, machine.store).Valid();
      var choice: Oracle :| choice.Valid();
      var result := Execute(machine, command, body, choice);
      var answers := ReplyFrames(result.1, rid);
      ExecuteFrames(machine, command, body, choice, rid);
      ElapseNoise(machine, machine, stopped);
      ElapseNoise(result.0, result.0, started);
      machine := result.0;
      Emit(stopped + answers + started);
      halt, replies, after, o := stopped, answers, started, choice;
    }

    /** A command arrives after some time. */
    method Process(command: byte, body: seq<byte>, rid: u32)
      returns (ghost before: seq<Response>, ghost replies: seq<Response>, ghost after: seq<Response>,
               ghost met: Machine, ghost o: Oracle)
      requires Valid() && rid != EVENT_REQUEST_ID
      modifies this`machine, this`wire, this`inFlight, this`open
      ensures Valid() && (open ==> old(open))
      ensures o.Valid() && Elapse(old(machine), met, before) && Elapse(machine, machine, after)
      ensures machine == Execute(met, command, body, o).0
      ensures replies == ReplyFrames(Execute(met, command, body, o).1, rid)
      ensures AllEncodable(before + replies + after)
      ensures inFlight == old(inFlight) + (before + replies + after)
      ensures wire == old(wire) + EncodeAll(before + replies + after)
    {
      before := Slice();
      met := machine;
      ghost var halt;
      halt, replies, after, o := Answer(command, body, rid);
      ElapseTrans(old(machine), met, met, before, halt);
      SendTwice(old(inFlight), old(wire), before, halt, replies, after);
      before := before + halt;
    }
  }
}
