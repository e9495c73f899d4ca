/** The client-side operations over any monitor connection: running to an
    address, waiting for a break, and calling one routine. */
module Ops {
  import opened Wrappers
  import opened Bytes
  import opened Protocol
  import opened Vice
  import opened Demux
  import opened Monitor
  import opened Arrivals

  /** Waiting is cut into slices of a second (in milliseconds). */
  const SECOND := 1000

  /** Waits until checkpoint n has fired once more; false when time is up. */
  method AwaitHit(mon: MonitorClient, n: u32, ghost addr: u16, i: nat, deadline: nat) returns (r: Result<bool, Error>)
    requires mon.Valid() && Tracking(mon.vice.machine, n, addr, i) && mon.Unread(n) + i <= mon.vice.machine.fired[n]
    modifies mon`events, mon`pending, mon`nextId, mon`received, mon.vice, mon.decoder
    ensures mon.Valid()
    ensures r == Success(true) ==> Armed(mon.vice.machine, n, addr, i + 1) && mon.vice.machine.pc == addr
                                   && Hits(mon.vice.inFlight, n) == 0
    ensures r == Success(false) ==> Tracking(mon.vice.machine, n, addr, i) && mon.vice.clock >= deadline
    ensures r.Success? ==> Keeps(old(mon.vice.machine), mon.vice.machine, n)
  {
    hide Drift, Find, EncodeAll, Machine.Valid, OnWire, Unasked, Issued, Hits, Keeps, Armed, Tracking;
    ghost var m0 := mon.vice.machine;
    KeepsSelf(m0, n);
    while true
      invariant mon.Valid() && Tracking(mon.vice.machine, n, addr, i) && Keeps(m0, mon.vice.machine, n)
      invariant mon.Unread(n) + i <= mon.vice.machine.fired[n]
      decreases deadline - mon.vice.clock
    {
      var now := mon.vice.Now();
      if now >= deadline {
        return Success(false);
      }
      ghost var m1 := mon.vice.machine;
      var hit :- Look(mon, n, addr, i, if deadline - now < SECOND then deadline - now else SECOND);
      KeepsTrans(m0, m1, mon.vice.machine, n);
      if hit {
        return Success(true);
      }
      ghost var m2 := mon.vice.machine;
      var launched :- Launch(mon, n, addr, i);
      KeepsTrans(m0, m2, mon.vice.machine, n);
    }
  }

  /** Starts the machine and waits for the next arrival. */
  method NextHit(mon: MonitorClient, n: u32, ghost addr: u16, i: nat, deadline: nat) returns (r: Result<bool, Error>)
    requires mon.Valid() && Armed(mon.vice.machine, n, addr, i) && Hits(mon.vice.inFlight, n) == 0
    modifies mon`events, mon`pending, mon`nextId, mon`received, mon.vice, mon.decoder
    ensures mon.Valid()
    ensures r == Success(true) ==> Armed(mon.vice.machine, n, addr, i + 1) && mon.vice.machine.pc == addr
                                   && Hits(mon.vice.inFlight, n) == 0
    ensures r == Success(false) ==> Tracking(mon.vice.machine, n, addr, i) && mon.vice.clock >= deadline
    ensures r.Success? ==>
              var m0 := old(mon.vice.machine);
              Keeps(m0, mon.vice.machine, n) && m0.starts + [Start(m0.pc, m0.store)] <= mon.vice.machine.starts
  {
    hide Drift, Find, EncodeAll, Machine.Valid, OnWire, Unasked, Issued, Hits, Keeps, Armed, Tracking;
    ghost var m0 := mon.vice.machine;
    var launched :- Launch(mon, n, addr, i);
    ghost var m1 := mon.vice.machine;
    var hit :- AwaitHit(mon, n, addr, i, deadline);
    KeepsTrans(m0, m1, mon.vice.machine, n);
    KeepsStarts(m1, mon.vice.machine, n);
    r := Success(hit);
  }

  /** Runs until addr was executed count times; the machine stays halted at the
      last arrival, or out of time is started without the checkpoint. */
  method RunUntilClient(mon: MonitorClient, addr: u16, timeout: nat, count: nat)
    returns (r: Result<(Option<map<byte, u16>>, nat), Error>)
    requires mon.Valid()
    modifies mon`events, mon`pending, mon`nextId, mon`received, mon.vice, mon.decoder
    ensures mon.Valid()
    ensures r.Success? ==> Ran(old(mon.vice.machine), mon.vice.machine, addr, r.value.0, r.value.1, count)
    ensures r.Success? && r.value.0.None? ==>
              && mon.vice.clock >= old(mon.vice.clock) + timeout
              && var log := mon.vice.machine.log; log != [] && log[|log| - 1] == EXIT
  {
    hide Drift, Find, EncodeAll, Machine.Valid, OnWire, Unasked, Issued, Hits, Armed, Tracking, Keeps, OneMore;
    hide RegisterFile, Machine.File, MonitorClient.Valid, MonitorClient.InStep, MonitorClient.Stream;
    var start := mon.Clock();
    ghost var m0 := mon.vice.machine;
    var planted := Plant(mon, addr);
    if planted.Failure? {
      return Failure(planted.error);
    }
    var n, i := planted.value, 0;
    while i < count
      invariant mon.Valid() && 0 <= i <= count
      invariant Armed(mon.vice.machine, n, addr, i) && Hits(mon.vice.inFlight, n) == 0
      invariant OneMore(m0, mon.vice.machine, n)
      invariant 0 < i ==> mon.vice.machine.pc == addr
    {
      ghost var m1 := mon.vice.machine;
      var hit := NextHit(mon, n, addr, i, start + timeout);
      if hit.Failure? {
        return Failure(hit.error);
      }
      OneMoreKept(m0, m1, mon.vice.machine, n);
      if !hit.value {
        ghost var m2 := mon.vice.machine;
        var withdrawn := Withdraw(mon, n, addr, i, true);
        if withdrawn.Failure? {
          return Failure(withdrawn.error);
        }
        OneMoreKept(m0, m2, mon.vice.machine, n);
        OneMoreIs(m0, mon.vice.machine, n);
        return Success((None, i));
      }
      i := i + 1;
    }
    ghost var m3 := mon.vice.machine;
    var regs := Harvest(mon, n, addr, i);
    if regs.Failure? {
      return Failure(regs.error);
    }
    OneMoreKept(m0, m3, mon.vice.machine, n);
    OneMoreIs(m0, mon.vice.machine, n);
    r := Success((Some(regs.value), count));
  }

  // ---------- waiting for any break ----------

  /** The checkpoint that holds the machine, and the registers there. */
  datatype Break = Break(checkpoint: u32, registers: map<byte, u16>)

  predicate Wanted(number: Option<u32>, n: u32) {
    number.None? || number == Some(n)
  }

  /** The first listed checkpoint that is hit, of the number asked for. */
  function HitOf(cks: seq<Checkpoint>, number: Option<u32>): (c: Option<u32>)
    ensures c.Some? ==> (exists k :: k in cks && k.number == c.value && k.hit) && Wanted(number, c.value)
    ensures c.None? ==> forall k | k in cks && Wanted(number, k.number) :: !k.hit
  {
    if cks == [] then None
    else if cks[0].hit && Wanted(number, cks[0].number) then Some(cks[0].number)
    else HitOf(cks[1..], number)
  }

  /** A checkpoint that holds the machine. */
  ghost predicate Holds(m: Machine, n: u32) {
    !m.running && exists c :: c in m.checkpoints && c.number == n && c.hit
  }

  /** Nothing was missed since m0: of the wanted checkpoints one that holds the
      machine stopped it at most once more, and any other neither held it at
      first nor stopped it since. */
  ghost predicate NoneMissed(m0: Machine, m: Machine, number: Option<u32>) {
    forall n: u32 | Wanted(number, n) ::
      if IsHeld(m, n) then m.fired[n] <= m0.fired[n] + 1 else m.fired[n] == m0.fired[n] && !IsHeld(m0, n)
  }

  predicate IsHeld(m: Machine, n: u32) {
    var c := Find(m.checkpoints, n);
    c.Some? && c.value.hit
  }

  lemma NoneMissedYet(m: Machine, number: Option<u32>)
    ensures NoneMissed(m, m, number)
  {
  }

  /** Time passing misses nothing: a stop raises the flag of its checkpoint, and
      while a flag is up the machine does not run. */
  lemma DriftMissesNone(m0: Machine, a: Machine, b: Machine, number: Option<u32>)
    requires NoneMissed(m0, a, number) && a.Valid() && Drift(a, b)
    ensures NoneMissed(m0, b, number)
  {
    forall n: u32 | Wanted(number, n)
      ensures if IsHeld(b, n) then b.fired[n] <= m0.fired[n] + 1 else b.fired[n] == m0.fired[n] && !IsHeld(m0, n)
    {
      DriftOne(a, b, n);
    }
  }

  /** When the list shows no wanted hit, none has fired since m0; starting the
      machine then misses nothing. */
  lemma StartMissesNone(m0: Machine, listed: Machine, number: Option<u32>)
    requires NoneMissed(m0, listed, number) && forall k | k in listed.checkpoints && Wanted(number, k.number) :: !k.hit
    ensures NoneMissed(m0, Started(listed), number)
    ensures forall n: u32 | Wanted(number, n) :: listed.fired[n] == m0.fired[n] && !IsHeld(m0, n)
  {
    forall n: u32 | Wanted(number, n)
      ensures !IsHeld(listed, n) && !IsHeld(Started(listed), n) && Started(listed).fired[n] == listed.fired[n]
    {
      FindClearHits(listed.checkpoints, n);
    }
  }

  lemma StartedValid(m: Machine)
    requires m.Valid()
    ensures Started(m).Valid()
  {
    MembersClearHits(m.checkpoints);
  }

  lemma SameTableMissesNone(m0: Machine, met: Machine, now: Machine, number: Option<u32>)
    requires NoneMissed(m0, met, number) && now.checkpoints == met.checkpoints && now.fired == met.fired
    ensures NoneMissed(m0, now, number)
  {
  }

  /** After the last start no wanted checkpoint has fired, or it has once and
      holds the machine. */
  lemma LastStart(m0: Machine, listed: Machine, now: Machine, number: Option<u32>)
    requires Drift(Started(listed), now)
    requires forall n: u32 | Wanted(number, n) :: listed.fired[n] == m0.fired[n] && !IsHeld(m0, n)
    ensures forall n: u32 | Wanted(number, n) ::
              !IsHeld(m0, n) && (now.fired[n] == m0.fired[n] || (now.fired[n] == m0.fired[n] + 1 && IsHeld(now, n)))
  {
    forall n: u32 | Wanted(number, n)
      ensures now.fired[n] == m0.fired[n] || (now.fired[n] == m0.fired[n] + 1 && IsHeld(now, n))
    {
      DriftOne(Started(listed), now, n);
    }
  }

  /** A stop counted since the machine was started: the checkpoint holds it. */
  lemma FiredHolds(started: Machine, now: Machine, n: u32)
    requires Drift(started, now) && now.fired[n] > started.fired[n]
    ensures Holds(now, n)
  {
    DriftOne(started, now, n);
    var c := Find(now.checkpoints, n).value;
    assert c in now.checkpoints && c.number == n && c.hit;
  }

  /** A hit found in the list of a machine: it holds it. */
  lemma ListedHolds(met: Machine, now: Machine, n: u32)
    requires met.Valid() && now.checkpoints == met.checkpoints && !now.running
    requires exists k :: k in met.checkpoints && k.number == n && k.hit
    ensures Holds(now, n)
  {
  }

  /** Hits unread are hits fired since the machine was started. */
  ghost predicate Fresh(started: Machine, now: Machine, events: seq<Response>, inFlight: seq<Response>) {
    forall n: u32 :: Hits(events, n) + Hits(inFlight, n) + started.fired[n] <= now.fired[n]
  }

  lemma FreshStart(list: Machine, met: Machine, now: Machine, before: seq<Response>, events: seq<Response>,
                   inFlight: seq<Response>)
    requires !list.running && Drift(list, met) && (forall n: u32 :: Hits(before, n) == 0)
    requires Ledger(list, now, [], before, events, inFlight)
    ensures Fresh(Started(met), now, events, inFlight) && met == list
  {
    HaltedStays(list, met);
  }

  lemma BumpedHolds(started: Machine, mid: Machine, now: Machine, e1: seq<Response>, f1: seq<Response>,
                    e2: seq<Response>, f2: seq<Response>, n: u32)
    requires Drift(started, mid) && Drift(mid, now) && Fresh(started, mid, e1, f1)
    requires Bumped(mid, now, e1, f1, e2, f2, n)
    ensures Holds(now, n)
  {
    DriftTrans(started, mid, now);
    FiredHolds(started, now, n);
  }

  /** Waits for a checkpoint to stop the machine.  What it reports holds the
      machine halted.  Out of time the machine was started, and no wanted
      checkpoint was passed over: one that held it at first would have been
      reported, and one that stopped it in the meantime did so after the last
      start, once, and still holds it. */
  method WaitForBreak(mon: MonitorClient, timeout: nat, number: Option<u32>) returns (r: Result<Option<Break>, Error>)
    requires mon.Valid()
    modifies mon`events, mon`pending, mon`nextId, mon`received, mon.vice, mon.decoder
    ensures mon.Valid()
    ensures r.Success? && r.value.Some? ==>
              var b := r.value.value;
              && Holds(mon.vice.machine, b.checkpoint) && (number.None? || number == Some(b.checkpoint))
              && b.registers == mon.vice.machine.File()
    ensures r.Success? && r.value.None? ==>
              var m0, m := old(mon.vice.machine), mon.vice.machine;
              && mon.vice.clock >= old(mon.vice.clock) + timeout
              && m.log != [] && m.log[|m.log| - 1] == EXIT
              && forall n: u32 | number.None? || number == Some(n) ::
                   !IsHeld(m0, n) && (m.fired[n] == m0.fired[n] || (m.fired[n] == m0.fired[n] + 1 && IsHeld(m, n)))
  {
    hide Drift, EncodeAll, Machine.Valid, OnWire, Unasked, Issued, Hits, Holds;
    hide Fresh, Bumped, HitOf, NoneMissed, IsHeld, Tells, RegisterFile, Machine.File;
    ghost var m0 := mon.vice.machine;
    NoneMissedYet(m0, number);
    var start := mon.vice.Now();
    var deadline := start + timeout;
    while true
      invariant mon.Valid() && NoneMissed(m0, mon.vice.machine, number)
      decreases deadline - mon.vice.clock
    {
      ghost var m1 := mon.vice.machine;
      var list, met := mon.CheckpointList();
      if list.Failure? {
        return Failure(list.error);
      }
      DriftValid(m1, met);
      DriftMissesNone(m0, m1, met, number);
      var hit := HitOf(list.value, number);
      if hit.Some? {
        ListedHolds(met, mon.vice.machine, hit.value);
        r := Report(mon, hit.value);
        return;
      }
      SameTableMissesNone(m0, met, mon.vice.machine, number);
      ghost var listed, before := mon.vice.machine, mon.vice.inFlight;
      StartMissesNone(m0, listed, number);
      StartedValid(listed);
      var now := mon.vice.Now();
      var resumed;
      resumed, met := mon.Resume();
      if resumed.Failure? {
        return Failure(resumed.error);
      }
      FreshStart(listed, met, mon.vice.machine, before, mon.events, mon.vice.inFlight);
      ghost var mid, e1, f1 := mon.vice.machine, mon.events, mon.vice.inFlight;
      DriftMissesNone(m0, Started(met), mid, number);
      if now >= deadline {
        LastStart(m0, listed, mid, number);
        return Success(None);
      }
      var info := mon.WaitForStop(if deadline - now < SECOND then deadline - now else SECOND);
      if info.Failure? {
        return Failure(info.error);
      }
      DriftMissesNone(m0, mid, mon.vice.machine, number);
      if info.value.Some? && info.value.value.checkpoint.Some? && Wanted(number, info.value.value.checkpoint.value) {
        var c := info.value.value.checkpoint.value;
        BumpedHolds(Started(met), mid, mon.vice.machine, e1, f1, mon.events, mon.vice.inFlight, c);
        r := Report(mon, c);
        return;
      }
    }
  }

  /** The registers are read before reporting; the halted machine stays as it
      is. */
  method Report(mon: MonitorClient, c: u32) returns (r: Result<Option<Break>, Error>)
    requires mon.Valid() && Holds(mon.vice.machine, c)
    modifies mon`events, mon`pending, mon`nextId, mon`received, mon.vice, mon.decoder
    ensures mon.Valid()
    ensures r.Success? ==> r.value == Some(Break(c, mon.vice.machine.File())) && Holds(mon.vice.machine, c)
  {
    hide RegisterFile;
    hide Drift, EncodeAll, Machine.Valid, OnWire, Unasked, Issued, Hits;
    ghost var m0 := mon.vice.machine;
    var regs, met := mon.Registers();
    if regs.Failure? {
      return Failure(regs.error);
    }
    HaltedStays(m0, met);
    r := Success(Some(Break(c, regs.value)));
  }

  // ---------- calling one routine ----------

  const STACK: u16 := 0x100

  /** The 6502's RTS on the stack page: pull low, pull high, go one past. */
  function Rts(memory: Ram, sp: byte): (u16, byte) {
    var lo: int, hi: int := memory[STACK + (sp + 1) % 0x100], memory[STACK + (sp + 2) % 0x100];
    ((lo + 0x100 * hi + 1) % 0x1_0000, (sp + 2) % 0x100)
  }

  /** The two bytes of the fake return address, pushed as JSR would. */
  function Pushed(memory: Ram, sp: byte, trap: u16): Ram {
    var ret := (trap - 1) % 0x1_0000;
    Written(Written(memory, STACK + sp, [ret / 0x100]), STACK + (sp - 1) % 0x100, [ret % 0x100])
  }

  /** Entered with SP two lower, the routine's own RTS lands on the trap with
      the stack pointer back where it was, for every stack pointer and trap. */
  lemma ReturnsToTrap(memory: Ram, sp: byte, trap: u16)
    ensures Rts(Pushed(memory, sp, trap), (sp - 2) % 0x100) == (trap, sp)
  {
    Downward(sp);
    var ret := (trap - 1) % 0x1_0000;
    assert ret % 0x100 + 0x100 * (ret / 0x100) == ret;
    assert (ret + 1) % 0x1_0000 == trap;
    WrittenAt(memory, STACK + sp, ret / 0x100);
    WrittenAt(Written(memory, STACK + sp, [ret / 0x100]), STACK + (sp - 1) % 0x100, ret % 0x100);
    hide Written;
  }

  lemma WrittenAt(memory: Ram, at: u16, value: byte)
    ensures forall k | 0 <= k < 0x1_0000 :: Written(memory, at, [value])[k] == if k == at then value else memory[k]
  {
  }

  lemma Downward(sp: byte)
    ensures ((sp - 2) % 0x100 + 1) % 0x100 == (sp - 1) % 0x100 != sp
    ensures ((sp - 2) % 0x100 + 2) % 0x100 == sp
  {
    if sp >= 2 {
      assert (sp - 2) % 0x100 == sp - 2;
    }
  }

  /** The register ids VICE gives A, X and Y. */
  const A_ID: byte := 0
  const X_ID: byte := 1
  const Y_ID: byte := 2

  /** The registers a caller gives, in the order they are set. */
  function Given(a: Option<u16>, x: Option<u16>, y: Option<u16>): seq<(byte, u16)> {
    (if a.Some? then [(A_ID, a.value)] else [])
    + (if x.Some? then [(X_ID, x.value)] else [])
    + (if y.Some? then [(Y_ID, y.value)] else [])
  }

  /** The registers after the given ones were assigned one by one. */
  function AssignAll(registers: Registers, values: seq<(byte, u16)>): Registers
    decreases values
  {
    if values == [] then registers
    else AssignAll(Assigned(registers, map[values[0].0 := values[0].1]), values[1..])
  }

  /** What a call starts the machine on: the return address, less one, in the two
      bytes below and at the stack pointer, high byte first; the stack pointer
      two lower and A, X and Y as given; the pc at the routine; and nothing else
      changed.  The routine's RTS then lands on the trap with the stack pointer
      as it was. */
  ghost predicate Prepared(m0: Machine, at: Start, pc: u16, a: Option<u16>, x: Option<u16>, y: Option<u16>, trap: u16) {
    && SP_ID in m0.File() && m0.File()[SP_ID] < 0x100
    && var sp: byte := m0.File()[SP_ID];
    && at.pc == pc && ReturnAddressAt(m0.store.memory, at.store.memory, sp, trap)
    && RegistersGiven(m0.store.registers, at.store.registers, sp, a, x, y)
    && Rts(at.store.memory, (sp - 2) % 0x100) == (trap, sp)
  }

  ghost predicate ReturnAddressAt(was: Ram, now: Ram, sp: byte, trap: u16) {
    && var hi: int, lo: int := now[0x100 + sp], now[0x100 + (sp - 1) % 0x100];
    && 0x100 * hi + lo == (trap - 1) % 0x1_0000
    && forall k | 0 <= k < 0x1_0000 && k != 0x100 + sp && k != 0x100 + (sp - 1) % 0x100 :: now[k] == was[k]
  }

  /** Registers 0, 1 and 2 are A, X and Y, register 4 the stack pointer. */
  ghost predicate RegistersGiven(was: Registers, now: Registers, sp: byte, a: Option<u16>, x: Option<u16>,
                                 y: Option<u16>) {
    && |now| == |was|
    && forall i | 0 <= i < |was| ::
         && now[i].0 == was[i].0
         && now[i].1 == (match was[i].0
                         case 0 => if a.Some? then a.value else was[i].1
                         case 1 => if x.Some? then x.value else was[i].1
                         case 2 => if y.Some? then y.value else was[i].1
                         case 4 => (sp - 2) % 0x100
                         case _ => was[i].1)
  }

  lemma PushedAt(memory: Ram, sp: byte, trap: u16)
    ensures ReturnAddressAt(memory, Pushed(memory, sp, trap), sp, trap)
  {
    Downward(sp);
    var ret := (trap - 1) % 0x1_0000;
    WrittenAt(memory, STACK + sp, ret / 0x100);
    WrittenAt(Written(memory, STACK + sp, [ret / 0x100]), STACK + (sp - 1) % 0x100, ret % 0x100);
    hide Written;
  }

  /** One register assigned, if a value is given for it. */
  function AssignIf(registers: Registers, id: byte, value: Option<u16>): Registers {
    if value.Some? then Assigned(registers, map[id := value.value]) else registers
  }

  lemma AssignIfAt(registers: Registers, id: byte, value: Option<u16>)
    requires id != SP_ID
    ensures var after := AssignIf(registers, id, value);
            && |after| == |registers|
            && forall i | 0 <= i < |after| ::
                 after[i] == (registers[i].0,
                              if registers[i].0 == id && value.Some? then value.value else registers[i].1)
  {
  }

  lemma AssignAllIf(registers: Registers, id: byte, value: Option<u16>, rest: seq<(byte, u16)>)
    ensures var first := if value.Some? then [(id, value.value)] else [];
            AssignAll(registers, first + rest) == AssignAll(AssignIf(registers, id, value), rest)
  {
    hide Assigned;
    if value.Some? {
      assert ([(id, value.value)] + rest)[1..] == rest;
    } else {
      assert [] + rest == rest;
    }
  }

  lemma LoweredAt(was: Registers, s: byte)
    ensures var now := Assigned(was, map[SP_ID := s]);
            forall i | 0 <= i < |was| :: now[i] == (was[i].0, if was[i].0 == SP_ID then s as u16 else was[i].1)
  {
  }

  /** Assigning one by one leaves every register with its own value. */
  lemma AllGiven(was: Registers, sp: byte, a: Option<u16>, x: Option<u16>, y: Option<u16>)
    ensures RegistersGiven(was, AssignAll(Assigned(was, map[SP_ID := (sp - 2) % 0x100]), Given(a, x, y)), sp, a, x, y)
  {
    var r0 := Assigned(was, map[SP_ID := (sp - 2) % 0x100]);
    LoweredAt(was, (sp - 2) % 0x100);
    hide Assigned, AssignIf, AssignAll;
    var r1 := AssignIf(r0, A_ID, a);
    var r2 := AssignIf(r1, X_ID, x);
    AssignIfAt(r0, A_ID, a);
    AssignIfAt(r1, X_ID, x);
    AssignIfAt(r2, Y_ID, y);
    GivenOneByOne(r0, a, x, y);
  }

  lemma GivenOneByOne(r0: Registers, a: Option<u16>, x: Option<u16>, y: Option<u16>)
    ensures AssignAll(r0, Given(a, x, y)) == AssignIf(AssignIf(AssignIf(r0, A_ID, a), X_ID, x), Y_ID, y)
  {
    var r1 := AssignIf(r0, A_ID, a);
    var r2 := AssignIf(r1, X_ID, x);
    assert AssignAll(AssignIf(r2, Y_ID, y), []) == AssignIf(r2, Y_ID, y);
    hide AssignIf, AssignAll;
    var xs := if x.Some? then [(X_ID, x.value)] else [];
    var ys := if y.Some? then [(Y_ID, y.value)] else [];
    assert Given(a, x, y) == (if a.Some? then [(A_ID, a.value)] else []) + (xs + ys) && ys == ys + [];
    AssignAllIf(r0, A_ID, a, xs + ys);
    AssignAllIf(r1, X_ID, x, ys);
    AssignAllIf(r2, Y_ID, y, []);
  }

  lemma {:induction false} StackPointerIsByte(registers: seq<(byte, u16)>, pc: u16, base: map<byte, u16>)
    requires forall p | p in registers :: p.0 == SP_ID ==> p.1 < 0x100
    requires SP_ID in base ==> base[SP_ID] < 0x100
    ensures var file := RegisterFile(registers + [(PC_ID, pc)], base); SP_ID in file ==> file[SP_ID] < 0x100
  {
    if registers == [] {
      assert registers + [(PC_ID, pc)] == [(PC_ID, pc)];
      assert RegisterFile([(PC_ID, pc)], base) == base[PC_ID := pc];
    } else {
      assert (registers + [(PC_ID, pc)])[1..] == registers[1..] + [(PC_ID, pc)];
      assert registers[0] in registers;
      StackPointerIsByte(registers[1..], pc, base[registers[0].0 := registers[0].1]);
    }
  }

  /** Pushes the two bytes of a return address and lowers the stack pointer. */
  method PushReturn(mon: MonitorClient, sp: byte, trap: u16) returns (r: Result<(), Error>)
    requires mon.Valid() && !mon.vice.machine.running
    modifies mon`events, mon`pending, mon`nextId, mon`received, mon.vice, mon.decoder
    ensures mon.Valid()
    ensures r.Success? ==>
              var m0, m := old(mon.vice.machine), mon.vice.machine;
              && m == m0.(store := m.store, log := m0.log + [MEMORY_SET, MEMORY_SET, REGISTERS_SET])
              && m.store.memory == Pushed(m0.store.memory, sp, trap)
              && m.store.registers == Assigned(m0.store.registers, map[SP_ID := (sp - 2) % 0x100])
  {
    hide Drift, EncodeAll, Machine.Valid, OnWire, Unasked, Issued, Hits, Written, Assigned;
    ghost var m0 := mon.vice.machine;
    var ret: u16 := (trap - 1) % 0x1_0000;
    var done;
    ghost var met;
    done, met := mon.MemoryWrite(STACK + sp, [ret / 0x100]);
    if done.Failure? {
      return Failure(done.error);
    }
    HaltedStays(m0, met);
    ghost var m1 := mon.vice.machine;
    done, met := mon.MemoryWrite(STACK + (sp - 1) % 0x100, [ret % 0x100]);
    if done.Failure? {
      return Failure(done.error);
    }
    HaltedStays(m1, met);
    ghost var m2 := mon.vice.machine;
    done, met := mon.SetRegister(SP_ID, (sp - 2) % 0x100);
    if done.Success? {
      HaltedStays(m2, met);
    }
    r := done;
  }

  /** Sets registers one by one. */
  method SetAll(mon: MonitorClient, values: seq<(byte, u16)>) returns (r: Result<(), Error>)
    requires mon.Valid() && !mon.vice.machine.running && forall p | p in values :: p.0 != PC_ID
    modifies mon`events, mon`pending, mon`nextId, mon`received, mon.vice, mon.decoder
    ensures mon.Valid()
    ensures r.Success? ==>
              var m0, m := old(mon.vice.machine), mon.vice.machine;
              && m == m0.(store := m.store, log := m.log)
              && m.store == m0.store.(registers := AssignAll(m0.store.registers, values))
  {
    hide Drift, EncodeAll, Machine.Valid, OnWire, Unasked, Issued, Hits, Assigned;
    ghost var m0 := mon.vice.machine;
    for k := 0 to |values|
      invariant mon.Valid()
      invariant var m := mon.vice.machine;
                m == m0.(store := m.store, log := m.log) && m.store == m0.store.(registers := m.store.registers)
      invariant AssignAll(mon.vice.machine.store.registers, values[k..]) == AssignAll(m0.store.registers, values)
    {
      ghost var m1 := mon.vice.machine;
      var done, met := mon.SetRegister(values[k].0, values[k].1);
      if done.Failure? {
        return Failure(done.error);
      }
      HaltedStays(m1, met);
    }
    r := Success(());
  }

  /** Pushes the fake return address and sets the registers, the program counter
      last; met is the machine as the first command halted it. */
  method Prepare(mon: MonitorClient, pc: u16, a: Option<u16>, x: Option<u16>, y: Option<u16>, trap: u16)
    returns (r: Result<(), Error>, ghost met: Machine)
    requires mon.Valid()
    modifies mon`events, mon`pending, mon`nextId, mon`received, mon.vice, mon.decoder
    ensures mon.Valid()
    ensures r.Success? ==>
              var m := mon.vice.machine;
              && Drift(old(mon.vice.machine), met) && Prepared(met, Start(m.pc, m.store), pc, a, x, y, trap)
              && m == met.(running := false, pc := m.pc, store := m.store, log := m.log)
  {
    hide Drift, EncodeAll, Machine.Valid, OnWire, Unasked, Issued, Hits;
    hide Written, Assigned, Rts, Pushed, RegisterFile, AssignAll, ReturnAddressAt, RegistersGiven;
    var regs;
    regs, met := mon.Registers();
    if regs.Failure? {
      return Failure(regs.error), met;
    }
    if SP_ID !in regs.value {
      return Failure(Garbled), met;
    }
    StackPointerIsByte(met.store.registers, met.pc, map[]);
    ReturnsToTrap(met.store.memory, regs.value[SP_ID], trap);
    PushedAt(met.store.memory, regs.value[SP_ID], trap);
    AllGiven(met.store.registers, regs.value[SP_ID], a, x, y);
    r := PushReturn(mon, regs.value[SP_ID], trap);
    if r.Failure? {
      return;
    }
    r := SetAll(mon, Given(a, x, y));
    if r.Failure? {
      return;
    }
    ghost var m1, before := mon.vice.machine, met;
    r, met := mon.SetRegister(PC_ID, pc);
    if r.Success? {
      HaltedStays(m1, met);
      PcOnly(m1, pc);
    }
    met := before;
  }

  /** Emulates JSR to a routine and runs until the trap is executed.  It starts
      the machine on what was met with the return address pushed and the
      registers set.  When it fired, the machine is halted at the trap, where
      the checkpoint set for this stopped it exactly once; either way that
      checkpoint is gone, and out of time the machine was started again. */
  method CallRoutine(mon: MonitorClient, pc: u16, a: Option<u16>, x: Option<u16>, y: Option<u16>, trap: u16,
                     timeout: nat)
    returns (r: Result<Option<map<byte, u16>>, Error>, ghost met: Machine)
    requires mon.Valid()
    modifies mon`events, mon`pending, mon`nextId, mon`received, mon.vice, mon.decoder
    ensures mon.Valid()
    ensures r.Success? ==>
              var m0, m := old(mon.vice.machine), mon.vice.machine;
              && Ran(m0, m, trap, r.value, if r.value.Some? then 1 else 0, 1)
              && (r.value.None? ==>
                    mon.vice.clock >= old(mon.vice.clock) + timeout && m.log != [] && m.log[|m.log| - 1] == EXIT)
              && Drift(m0, met) && |m0.starts| < |m.starts|
              && Prepared(met, m.starts[|m0.starts|], pc, a, x, y, trap)
  {
    hide Drift, Find, EncodeAll, Machine.Valid, OnWire, Unasked, Issued, Hits, Armed, Tracking, Keeps, OneMore;
    hide RegisterFile, Machine.File, Prepared, MonitorClient.InStep, MonitorClient.Stream;
    ghost var m0 := mon.vice.machine;
    var start := mon.Clock();
    var prepared;
    prepared, met := Prepare(mon, pc, a, x, y, trap);
    if prepared.Failure? {
      return Failure(prepared.error), met;
    }
    ghost var entry := mon.vice.machine;
    var planted := Plant(mon, trap);
    if planted.Failure? {
      return Failure(planted.error), met;
    }
    var n := planted.value;
    ghost var m1 := mon.vice.machine;
    PreparedKeeps(m0, met, entry, m1, n);
    var hit := NextHit(mon, n, trap, 0, start + timeout);
    if hit.Failure? {
      return Failure(hit.error), met;
    }
    OneMoreKept(m0, m1, mon.vice.machine, n);
    ghost var m2 := mon.vice.machine;
    if !hit.value {
      var withdrawn := Withdraw(mon, n, trap, 0, true);
      if withdrawn.Failure? {
        return Failure(withdrawn.error), met;
      }
      OneMoreKept(m0, m2, mon.vice.machine, n);
      FirstStart(entry, m2, mon.vice.machine, n);
      OneMoreIs(m0, mon.vice.machine, n);
      return Success(None), met;
    }
    var regs := Harvest(mon, n, trap, 1);
    if regs.Failure? {
      return Failure(regs.error), met;
    }
    OneMoreKept(m0, m2, mon.vice.machine, n);
    FirstStart(entry, m2, mon.vice.machine, n);
    OneMoreIs(m0, mon.vice.machine, n);
    r := Success(Some(regs.value));
  }

  lemma KeepsStarts(a: Machine, b: Machine, n: u32)
    requires Keeps(a, b, n)
    ensures a.starts <= b.starts
  {
  }

  lemma FirstStart(entry: Machine, a: Machine, b: Machine, n: u32)
    requires Keeps(a, b, n) && entry.starts + [Start(entry.pc, entry.store)] <= a.starts
    ensures |entry.starts| < |b.starts| && b.starts[|entry.starts|] == Start(entry.pc, entry.store)
  {
    assert a.starts[|entry.starts|] == Start(entry.pc, entry.store);
  }

  /** Up to the start nothing but the one checkpoint and the store changed. */
  lemma PreparedKeeps(m0: Machine, met: Machine, entry: Machine, planted: Machine, n: u32)
    requires m0.Valid() && Drift(m0, met) && OneMore(entry, planted, n)
    requires entry == met.(running := false, pc := entry.pc, store := entry.store, log := entry.log)
    ensures OneMore(m0, planted, n) && entry.starts == m0.starts && m0.fired[n] == 0
  {
    DriftKeeps(m0, met, n);
    DriftOne(m0, met, n);
    assert Keeps(m0, entry, n);
    KeptOneMore(m0, entry, planted, n);
  }

  lemma PcOnly(m: Machine, pc: u16)
    ensures SetOne(m, PC_ID, pc) == m.(pc := pc)
  {
    var registers := m.store.registers;
    assert forall i | 0 <= i < |registers| :: registers[i] in registers;
    assert Assigned(registers, map[PC_ID := pc]) == registers;
  }

  // ---------- finding bytes ----------

  predicate Occurs(data: seq<byte>, pattern: seq<byte>, i: nat) {
    i + |pattern| <= |data| && data[i..i + |pattern|] == pattern
  }

  /** bytes.find: the first occurrence from an offset on. */
  method First(data: seq<byte>, pattern: seq<byte>, from: nat) returns (i: Option<nat>)
    ensures i.None? ==> forall k: nat | k >= from :: !Occurs(data, pattern, k)
    ensures i.Some? ==>
              && i.value >= from && Occurs(data, pattern, i.value)
              && forall k: nat | from <= k < i.value :: !Occurs(data, pattern, k)
  {
    var k := from;
    while k + |pattern| <= |data|
      invariant k >= from && forall j: nat | from <= j < k :: !Occurs(data, pattern, j)
    {
      if Occurs(data, pattern, k) {
        return Some(k);
      }
      k := k + 1;
    }
    return None;
  }

  /** The matches are the occurrences at offsets below from, in order, the last
      of them just below it. */
  ghost predicate Found(data: seq<byte>, start: nat, pattern: seq<byte>, matches: seq<nat>, from: nat) {
    && (matches != [] ==> matches[|matches| - 1] == start + from - 1)
    && (forall i, j | 0 <= i < j < |matches| :: matches[i] < matches[j])
    && (forall m | m in matches :: start <= m < start + from && Occurs(data, pattern, m - start))
    && (forall k: nat | k < from && Occurs(data, pattern, k) :: start + k in matches)
  }

  lemma FoundMore(data: seq<byte>, start: nat, pattern: seq<byte>, matches: seq<nat>, from: nat, i: nat)
    requires Found(data, start, pattern, matches, from) && i >= from && Occurs(data, pattern, i)
    requires forall k: nat | from <= k < i :: !Occurs(data, pattern, k)
    ensures Found(data, start, pattern, matches + [start + i], i + 1)
  {
    hide Occurs;
    assert forall j | 0 <= j < |matches| :: matches[j] in matches;
  }

  /** Every occurrence, overlapping ones included, in order and up to a limit;
      truncated exactly when there are more. */
  method FindBytes(data: seq<byte>, start: nat, pattern: seq<byte>, limit: nat)
    returns (matches: seq<nat>, truncated: bool)
    ensures |matches| <= limit && (truncated ==> |matches| == limit)
    ensures forall i, j | 0 <= i < j < |matches| :: matches[i] < matches[j]
    ensures forall m | m in matches :: m >= start && Occurs(data, pattern, m - start)
    ensures forall k: nat
              | Occurs(data, pattern, k) && (!truncated || (matches != [] && start + k <= matches[|matches| - 1])) ::
              start + k in matches
    ensures truncated <==> exists k: nat :: Occurs(data, pattern, k) && start + k !in matches
  {
    matches, truncated := [], false;
    var i := First(data, pattern, 0);
    ghost var from: nat := 0;
    while i.Some?
      invariant |matches| <= limit && !truncated && Found(data, start, pattern, matches, from)
      invariant i.None? ==> forall k: nat | k >= from :: !Occurs(data, pattern, k)
      invariant i.Some? ==>
                  && i.value >= from && Occurs(data, pattern, i.value)
                  && forall k: nat | from <= k < i.value :: !Occurs(data, pattern, k)
      decreases i.Some?, |data| - from
    {
      if |matches| >= limit {
        truncated := true;
        assert start + i.value !in matches;
        break;
      }
      FoundMore(data, start, pattern, matches, from, i.value);
      matches := matches + [start + i.value];
      from := i.value + 1;
      i := First(data, pattern, i.value + 1);
    }
  }
}
