/** One checkpoint followed through a run: what is known of it while the
    machine runs up to it, and how every loop that waits for it starts over. */
module Arrivals {
  import opened Wrappers
  import opened Bytes
  import opened Protocol
  import opened Vice
  import opened Demux
  import opened Monitor

  /** Checkpoint n is a lasting, enabled exec stop at addr and nowhere else. */
  predicate Planted(m: Machine, n: u32, addr: u16) {
    var c := Find(m.checkpoints, n);
    && c.Some? && c.value.start == addr && c.value.end == addr
    && c.value.stop && c.value.enabled && c.value.op == CP_EXEC && !c.value.temporary
  }

  /** n has stopped the machine i times and the machine is halted. */
  predicate Armed(m: Machine, n: u32, addr: u16, i: nat) {
    Planted(m, n, addr) && m.fired[n] == i && !m.running
  }

  /** Since the machine was last started n has not fired, or it has fired once
      and holds the machine at addr. */
  predicate Tracking(m: Machine, n: u32, addr: u16, i: nat) {
    && Planted(m, n, addr)
    && if Find(m.checkpoints, n).value.hit then m.fired[n] == i + 1 && !m.running && m.pc == addr else m.fired[n] == i
  }

  lemma TrackingStarts(m: Machine, n: u32, addr: u16, i: nat)
    requires Armed(m, n, addr, i)
    ensures Tracking(Started(m), n, addr, i)
  {
    FindClearHits(m.checkpoints, n);
  }

  lemma TrackingDrifts(a: Machine, b: Machine, n: u32, addr: u16, i: nat)
    requires Tracking(a, n, addr, i) && Drift(a, b)
    ensures Tracking(b, n, addr, i)
  {
    DriftOne(a, b, n);
  }

  /** Deleting a followed checkpoint: it is gone, having fired i or i + 1 times. */
  lemma Lifting(a: Machine, met: Machine, b: Machine, n: u32, addr: u16, i: nat)
    requires Tracking(a, n, addr, i) && Drift(a, met)
    requires b.checkpoints == Remove(met.checkpoints, n) && b.fired == met.fired
    ensures Find(b.checkpoints, n).None? && i <= b.fired[n] <= i + 1
  {
    TrackingDrifts(a, met, n, addr, i);
    FindRemove(met.checkpoints, n, n);
  }

  lemma GoneStays(a: Machine, b: Machine, n: u32)
    requires Find(a.checkpoints, n).None? && Drift(a, b)
    ensures Find(b.checkpoints, n).None? && b.fired[n] == a.fired[n]
  {
    DriftOne(a, b, n);
  }

  lemma CountedFired(m: Machine, n: u32)
    requires m.Valid()
    ensures Find(m.checkpoints, n).Some? ==> Find(m.checkpoints, n).value.hitCount <= m.fired[n]
  {
  }

  /** A newly set checkpoint is armed, and its number was never used. */
  lemma Planting(m0: Machine, met: Machine, now: Machine, c: Checkpoint)
    requires m0.Valid() && Drift(m0, met) && c.number == met.nextNumber
    requires c.start == c.end && c.stop && c.enabled && c.op == CP_EXEC && !c.temporary && !c.hit
    requires now.checkpoints == met.checkpoints + [c] && now.fired == met.fired && !now.running
    requires now.nextNumber == met.nextNumber + 1 && now.starts == met.starts
    ensures now.starts == m0.starts
    ensures Armed(now, c.number, c.start, 0) && m0.fired[c.number] == 0 && OneMore(m0, now, c.number)
  {
    DriftValid(m0, met);
    DriftOne(m0, met, c.number);
    FindAppend(met.checkpoints, c, c.number);
    forall k: u32 | k != c.number ensures Find(now.checkpoints, k).Some? <==> Find(m0.checkpoints, k).Some? {
      DriftOne(m0, met, k);
      FindAppend(met.checkpoints, c, k);
    }
  }

  // ---------- the other checkpoints ----------

  /** No checkpoint but n was set or deleted, and no number was given out. */
  ghost predicate Keeps(a: Machine, b: Machine, n: u32) {
    && b.nextNumber == a.nextNumber && a.starts <= b.starts
    && forall k: u32 | k != n :: Find(b.checkpoints, k).Some? <==> Find(a.checkpoints, k).Some?
  }

  /** Only n was set, with the number that was next. */
  ghost predicate OneMore(a: Machine, b: Machine, n: u32) {
    && n == a.nextNumber && b.nextNumber == a.nextNumber + 1 && a.starts <= b.starts
    && forall k: u32 | k != n :: Find(b.checkpoints, k).Some? <==> Find(a.checkpoints, k).Some?
  }

  lemma KeepsTrans(a: Machine, b: Machine, c: Machine, n: u32)
    requires Keeps(a, b, n) && Keeps(b, c, n)
    ensures Keeps(a, c, n)
  {
  }

  lemma OneMoreKept(a: Machine, b: Machine, c: Machine, n: u32)
    requires OneMore(a, b, n) && Keeps(b, c, n)
    ensures OneMore(a, c, n)
  {
  }

  lemma OneMoreIs(m0: Machine, m: Machine, n: u32)
    requires OneMore(m0, m, n)
    ensures m0.nextNumber == n
  {
  }

  lemma KeptOneMore(a: Machine, b: Machine, c: Machine, n: u32)
    requires Keeps(a, b, n) && OneMore(b, c, n)
    ensures OneMore(a, c, n)
  {
  }

  lemma KeepsSelf(a: Machine, n: u32)
    ensures Keeps(a, a, n)
  {
  }

  lemma DriftStarts(a: Machine, b: Machine, n: u32)
    requires Drift(Started(a), b)
    ensures b.starts == a.starts + [Start(a.pc, a.store)]
  {
    DriftOne(Started(a), b, n);
  }

  lemma DriftKeeps(a: Machine, b: Machine, n: u32)
    requires Drift(a, b)
    ensures Keeps(a, b, n)
  {
    forall k: u32
      ensures b.nextNumber == a.nextNumber && (Find(b.checkpoints, k).Some? <==> Find(a.checkpoints, k).Some?)
    {
      DriftOne(a, b, k);
    }
    DriftOne(a, b, n);
  }

  lemma StartKeeps(a: Machine, n: u32)
    ensures Keeps(a, Started(a), n)
  {
    forall k: u32 ensures Find(Started(a).checkpoints, k).Some? <==> Find(a.checkpoints, k).Some? {
      FindClearHits(a.checkpoints, k);
    }
  }

  lemma RemoveKeeps(a: Machine, b: Machine, n: u32)
    requires b.checkpoints == Remove(a.checkpoints, n) && b.nextNumber == a.nextNumber && b.starts == a.starts
    ensures Keeps(a, b, n)
  {
    forall k: u32 | k != n ensures Find(b.checkpoints, k).Some? <==> Find(a.checkpoints, k).Some? {
      FindRemove(a.checkpoints, n, k);
    }
  }

  /** What running to an address leaves.  Its checkpoint had the number that was
      next, is gone, and no other was set or deleted.  With registers it fired
      exactly count times and the machine is halted at the address; without, it
      fired as often as reported or once more. */
  ghost predicate Ran(m0: Machine, m: Machine, addr: u16, registers: Option<map<byte, u16>>, reached: int, count: int) {
    && m0.nextNumber < 0x1_0000_0000
    && var n: u32 := m0.nextNumber;
    && m0.fired[n] == 0 && OneMore(m0, m, n) && Find(m.checkpoints, n).None?
    && match registers
       case Some(file) =>
         && !m.running && file == m.File() && reached == count && (count > 0 ==> m.pc == addr)
         && m.fired[n] == if count > 0 then count else 0
       case None => 0 <= reached < count && reached <= m.fired[n] <= reached + 1
  }

  // ---------- the steps of a run ----------

  /** Starts the halted machine for the next arrival. */
  method Launch(mon: MonitorClient, ghost n: u32, ghost addr: u16, ghost i: nat) returns (r: Result<(), Error>)
    requires mon.Valid() && Armed(mon.vice.machine, n, addr, i) && Hits(mon.vice.inFlight, n) == 0
    modifies mon`events, mon`pending, mon`nextId, mon`received, mon.vice, mon.decoder
    ensures mon.Valid() && mon.Onward(old(mon.At()))
    ensures r == Failure(Closed) ==> !mon.vice.open
    ensures r.Success? ==>
              && Tracking(mon.vice.machine, n, addr, i) && mon.Unread(n) + i <= mon.vice.machine.fired[n]
              && Keeps(old(mon.vice.machine), mon.vice.machine, n)
              && var m0 := old(mon.vice.machine); mon.vice.machine.starts == m0.starts + [Start(m0.pc, m0.store)]
  {
    hide Drift, Find, EncodeAll, Machine.Valid, OnWire, Unasked, Issued, Keeps;
    ghost var m0 := mon.vice.machine;
    ghost var met;
    r, met := mon.Resume();
    if r.Success? {
      DriftStarts(met, mon.vice.machine, n);
      HaltedStays(m0, met);
      TrackingStarts(met, n, addr, i);
      TrackingDrifts(Started(met), mon.vice.machine, n, addr, i);
      StartKeeps(m0, n);
      DriftKeeps(Started(met), mon.vice.machine, n);
      KeepsTrans(m0, Started(met), mon.vice.machine, n);
    }
  }

  /** One look for the next arrival: told by the event, or by the flag or count
      in the checkpoint list when the event was lost.  Without one the list has
      left the machine halted, as if never started. */
  method Look(mon: MonitorClient, n: u32, ghost addr: u16, i: nat, window: nat) returns (r: Result<bool, Error>)
    requires mon.Valid() && Tracking(mon.vice.machine, n, addr, i) && mon.Unread(n) + i <= mon.vice.machine.fired[n]
    modifies mon`events, mon`pending, mon`nextId, mon`received, mon.vice, mon.decoder
    ensures mon.Valid() && mon.Onward(old(mon.At()))
    ensures (r == Failure(Closed) ==> !mon.vice.open)
    ensures r.Success? ==>
              && Armed(mon.vice.machine, n, addr, if r.value then i + 1 else i) && Hits(mon.vice.inFlight, n) == 0
              && (r.value ==> mon.vice.machine.pc == addr) && Keeps(old(mon.vice.machine), mon.vice.machine, n)
  {
    hide Drift, Find, EncodeAll, Machine.Valid, OnWire, Unasked, Issued, Hits, Keeps, Tells;
    ghost var m0 := mon.vice.machine;
    var info := mon.WaitForStop(window);
    if info.Failure? {
      return Failure(info.error);
    }
    ghost var m1 := mon.vice.machine;
    TrackingDrifts(m0, m1, n, addr, i);
    DriftKeeps(m0, m1, n);
    if info.value.Some? && info.value.value.checkpoint == Some(n) {
      return Success(true);
    }
    var list, met := mon.CheckpointList();
    if list.Failure? {
      return Failure(list.error);
    }
    TrackingDrifts(m1, met, n, addr, i);
    DriftKeeps(m1, met, n);
    ListKeeps(m0, m1, met, mon.vice.machine, n);
    CountedFired(mon.vice.machine, n);
    var cur := Find(list.value, n);
    r := Success(cur.Some? && (cur.value.hit || cur.value.hitCount > i));
  }

  lemma ListKeeps(m0: Machine, m: Machine, met: Machine, now: Machine, n: u32)
    requires Keeps(m0, m, n) && Keeps(m, met, n) && now.checkpoints == met.checkpoints
    requires now.nextNumber == met.nextNumber && now.starts == met.starts
    ensures Keeps(m0, now, n)
  {
  }

  /** Sets a fresh exec checkpoint at addr. */
  method Plant(mon: MonitorClient, addr: u16) returns (r: Result<u32, Error>)
    requires mon.Valid()
    modifies mon`events, mon`pending, mon`nextId, mon`received, mon.vice, mon.decoder
    ensures mon.Valid() && mon.Onward(old(mon.At()))
    ensures r == Failure(Closed) ==> !mon.vice.open
    ensures r.Success? ==>
              && Armed(mon.vice.machine, r.value, addr, 0) && Hits(mon.vice.inFlight, r.value) == 0
              && OneMore(old(mon.vice.machine), mon.vice.machine, r.value) && old(mon.vice.machine).fired[r.value] == 0
              && mon.vice.machine.starts == old(mon.vice.machine).starts
    ensures r.Success? && !old(mon.vice.machine).running ==>
              mon.vice.machine.pc == old(mon.vice.machine).pc && mon.vice.machine.store == old(mon.vice.machine).store
  {
    hide Drift, Find, EncodeAll, Machine.Valid, OnWire, Unasked, Issued, Hits, Armed, OneMore;
    ghost var m0 := mon.vice.machine;
    var ck;
    ghost var met;
    ck, met := mon.CheckpointSet(addr, addr, true, true, CP_EXEC, false);
    if ck.Failure? {
      return Failure(ck.error);
    }
    Planting(m0, met, mon.vice.machine, ck.value);
    if !m0.running {
      HaltedStays(m0, met);
    }
    r := Success(ck.value.number);
  }

  /** Gives up waiting: deletes the checkpoint and, unless the machine is left
      to another, starts it. */
  method Withdraw(mon: MonitorClient, n: u32, ghost addr: u16, ghost i: nat, restart: bool)
    returns (r: Result<(), Error>)
    requires mon.Valid() && Tracking(mon.vice.machine, n, addr, i)
    modifies mon`events, mon`pending, mon`nextId, mon`received, mon.vice, mon.decoder
    ensures mon.Valid() && mon.Onward(old(mon.At()))
    ensures (r == Failure(Closed) ==> !mon.vice.open)
    ensures r.Success? ==>
              var m := mon.vice.machine;
              && Keeps(old(mon.vice.machine), m, n) && Find(m.checkpoints, n).None? && i <= m.fired[n] <= i + 1
              && m.log == old(mon.vice.machine).log
                 + (if restart then [CHECKPOINT_DELETE, EXIT] else [CHECKPOINT_DELETE])
  {
    hide Drift, Find, EncodeAll, Machine.Valid, OnWire, Unasked, Issued, Hits, ClearHits, Remove, Tracking, Keeps;
    ghost var m0 := mon.vice.machine;
    ghost var met;
    r, met := mon.CheckpointDelete(n);
    if r.Failure? {
      return;
    }
    ghost var m1 := mon.vice.machine;
    DriftOne(m0, met, n);
    Lifting(m0, met, m1, n, addr, i);
    LiftingKeeps(m0, met, m1, n);
    if restart {
      r, met := mon.Resume();
      if r.Success? {
        HaltedStays(m1, met);
        FindClearHits(m1.checkpoints, n);
        GoneStays(Started(m1), mon.vice.machine, n);
        StartKeeps(m1, n);
        DriftKeeps(Started(m1), mon.vice.machine, n);
        KeepsTrans(m1, Started(m1), mon.vice.machine, n);
        KeepsTrans(m0, m1, mon.vice.machine, n);
        assert m0.log + [CHECKPOINT_DELETE] + [EXIT] == m0.log + [CHECKPOINT_DELETE, EXIT];
      }
    }
  }

  lemma LiftingKeeps(m0: Machine, met: Machine, m1: Machine, n: u32)
    requires Drift(m0, met) && m1.checkpoints == Remove(met.checkpoints, n) && m1.nextNumber == met.nextNumber
    requires m1.starts == met.starts
    ensures Keeps(m0, m1, n)
  {
    DriftKeeps(m0, met, n);
    RemoveKeeps(met, m1, n);
    KeepsTrans(m0, met, m1, n);
  }

  /** After the last arrival: the registers, and the checkpoint is deleted. */
  method Harvest(mon: MonitorClient, n: u32, ghost addr: u16, ghost i: nat) returns (r: Result<map<byte, u16>, Error>)
    requires mon.Valid() && Armed(mon.vice.machine, n, addr, i)
    modifies mon`events, mon`pending, mon`nextId, mon`received, mon.vice, mon.decoder
    ensures mon.Valid() && mon.Onward(old(mon.At()))
    ensures (r == Failure(Closed) ==> !mon.vice.open)
    ensures r.Success? ==>
              var m := mon.vice.machine;
              && Keeps(old(mon.vice.machine), m, n) && Find(m.checkpoints, n).None? && m.fired[n] == i && !m.running
              && m.pc == old(mon.vice.machine).pc && m.store == old(mon.vice.machine).store && r.value == m.File()
  {
    hide Drift, Find, EncodeAll, Machine.Valid, OnWire, Unasked, Issued, Hits, Remove, Keeps, RegisterFile;
    ghost var m0 := mon.vice.machine;
    ghost var met;
    r, met := mon.Registers();
    if r.Failure? {
      return;
    }
    HaltedStays(m0, met);
    ghost var m1 := mon.vice.machine;
    var deleted;
    deleted, met := mon.CheckpointDelete(n);
    if deleted.Failure? {
      return Failure(deleted.error);
    }
    HaltedStays(m1, met);
    FindRemove(m1.checkpoints, n, n);
    RemoveKeeps(m0, mon.vice.machine, n);
  }
}
