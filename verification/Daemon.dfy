/** The per-session daemon: one monitor connection and the run/stop state the
    session wants the machine to be in. */
module Daemon {
  import opened Wrappers
  import opened Bytes
  import opened Protocol
  import opened Vice
  import opened Demux
  import opened Monitor
  import opened Arrivals

  /** Waiting is cut into slices of half a second (in milliseconds). */
  const SLICE := 500

  datatype RunState = RUNNING | HALTED

  // ---------- what a batch of events says about the machine ----------

  /** The idle pump: the last STOPPED or RESUMED wins. */
  function LastSaid(events: seq<Response>, before: RunState): RunState {
    if events == [] then before
    else
      var e := events[0].responseType;
      LastSaid(events[1..], if e == STOPPED then HALTED else if e == RESUMED then RUNNING else before)
  }

  /** A restore: a hit parks, a later RESUMED cancels it. */
  function Parks(events: seq<Response>, before: bool): bool {
    if events == [] then before
    else
      var e := events[0];
      Parks(events[1..], if IsHit(e) then true else if e.responseType == RESUMED then false else before)
  }

  lemma {:induction false} LastSaidAppend(a: seq<Response>, b: seq<Response>, before: RunState)
    ensures LastSaid(a + b, before) == LastSaid(b, LastSaid(a, before))
  {
    if a == [] {
      assert a + b == b;
    } else {
      assert (a + b)[1..] == a[1..] + b;
      var e := a[0].responseType;
      LastSaidAppend(a[1..], b, if e == STOPPED then HALTED else if e == RESUMED then RUNNING else before);
    }
  }

  lemma {:induction false} ParksAppend(a: seq<Response>, b: seq<Response>, before: bool)
    ensures Parks(a + b, before) == Parks(b, Parks(a, before))
  {
    if a == [] {
      assert a + b == b;
    } else {
      assert (a + b)[1..] == a[1..] + b;
      ParksAppend(a[1..], b, if IsHit(a[0]) then true else if a[0].responseType == RESUMED then false else before);
    }
  }

  /** The pump reads RUNNING exactly when a RESUMED has no STOPPED after it, or
      nothing was said and it was so before. */
  lemma {:induction false} LastSaidMeaning(events: seq<Response>, before: RunState)
    ensures LastSaid(events, before) == RUNNING <==>
            || (exists k: nat :: k < |events| && events[k].responseType == RESUMED
                                 && forall j: nat | k < j < |events| :: events[j].responseType != STOPPED)
            || (before == RUNNING && forall e | e in events :: e.responseType != STOPPED)
  {
    if events != [] {
      var n := |events| - 1;
      var front, e := events[..n], events[n];
      assert events == front + [e];
      LastSaidAppend(front, [e], before);
      LastSaidMeaning(front, before);
      if e.responseType == RESUMED {
        assert events[n].responseType == RESUMED;
      }
      if LastSaid(front, before) == RUNNING && e.responseType != STOPPED {
        if k: nat :| k < |front| && front[k].responseType == RESUMED
                     && forall j: nat | k < j < |front| :: front[j].responseType != STOPPED {
          assert events[k].responseType == RESUMED;
        }
      }
      if k: nat :| k < |events| && events[k].responseType == RESUMED
                   && (forall j: nat | k < j < |events| :: events[j].responseType != STOPPED) && k < n {
        assert front[k].responseType == RESUMED;
        assert forall j: nat | k < j < |front| :: front[j].responseType == events[j].responseType;
      }
    }
  }

  /** A restore parks exactly when some hit has no RESUMED after it. */
  lemma {:induction false} ParksMeaning(events: seq<Response>)
    ensures Parks(events, false) <==>
            exists k: nat :: k < |events| && IsHit(events[k])
                             && forall j: nat | k < j < |events| :: events[j].responseType != RESUMED
  {
    if events != [] {
      var n := |events| - 1;
      var front, e := events[..n], events[n];
      assert events == front + [e];
      ParksAppend(front, [e], false);
      ParksMeaning(front);
      if IsHit(e) {
        assert IsHit(events[n]);
      } else if Parks(front, false) && e.responseType != RESUMED {
        var k: nat :| k < |front| && IsHit(front[k])
                      && forall j: nat | k < j < |front| :: front[j].responseType != RESUMED;
        assert IsHit(events[k]);
      }
      if k: nat :| k < |events| && IsHit(events[k]) && k < n
                   && forall j: nat | k < j < |events| :: events[j].responseType != RESUMED {
        assert IsHit(front[k]);
        assert forall j: nat | k < j < |front| :: front[j].responseType == events[j].responseType;
      }
    }
  }

  datatype Arrival = Arrived | OutOfTime | Vanished

  datatype Reached = Reached(registers: Option<map<byte, u16>>, reached: int, count: int)

  /** At which look a waiting client is first found gone, if ever. */
  type Patience = Option<nat>

  // ---------- what a client can ask ----------

  /** Inspect stands for every verb that is one monitor command, Step for step
      and finish. */
  datatype Verb =
    | Status
    | Release
    | Resume
    | WaitStop(window: nat)
    | Until(addr: u16, timeout: nat, count: int)
    | Inspect(command: byte, body: seq<byte>, collectType: Option<byte>)
    | Step(command: byte, body: seq<byte>)
    | Quit
  {
    /** Each verb stands for a fixed monitor command, and none but Resume for
        EXIT. */
    predicate Allowed() {
      && (Inspect? ==> command != EXIT && (command == CHECKPOINT_LIST ==> collectType == Some(CHECKPOINT_GET)))
      && (Step? ==> command == ADVANCE_INSTRUCTIONS || command == EXECUTE_UNTIL_RETURN)
    }

    /** Not a request to run the machine. */
    predicate Quiet() {
      !Resume? && !Until?
    }
  }

  ghost predicate AllQuiet(verbs: seq<Verb>) {
    forall v | v in verbs :: v.Quiet()
  }

  datatype Reply =
    | Done
    | Told(state: RunState)
    | Stopped(info: Option<StopInfo>)
    | Ran(run: Reached)
    | Given(answer: Answer)
    | Refusal(error: Error)

  datatype Activity = Idle | Client(stays: Patience, verbs: seq<Verb>)

  // ---------- the history of a daemon ----------

  /** A daemon, its connection and the machine at one moment; looks counts how
      often the present client was looked at while it waited. */
  datatype Moment = Moment(state: RunState, machine: Machine, nextId: nat, received: seq<Response>,
                           queued: seq<Response>, open: bool, clock: nat, looks: nat, quitting: bool, patience: nat)

  ghost predicate Later(x: Moment, y: Moment) {
    x.received <= y.received && x.nextId <= y.nextId && x.clock <= y.clock && (y.open ==> x.open)
  }

  /** A command was sent, unless no request number was left. */
  ghost predicate Commanded(x: Moment, y: Moment, command: byte) {
    Logged(x.machine, y.machine, command, x.nextId >= EVENT_REQUEST_ID)
  }

  /** What was queued, and what was received since up to a point. */
  ghost function Polled(x: Moment, y: Moment, seen: nat): seq<Response>
    requires |x.received| <= seen <= |y.received|
  {
    x.queued + EventsOf(y.received[|x.received|..seen])
  }

  /** A restore that polled the frames up to seen: parked by a hit among them or
      stopped before, the machine is left alone and the events are kept;
      otherwise EXIT is sent. */
  ghost predicate Restored(x: Moment, y: Moment, seen: nat) {
    && |x.received| <= seen <= |y.received|
    && y.state == (if Parks(Polled(x, y, seen), false) then HALTED else x.state)
    && if y.state == HALTED
       then y.machine.log == x.machine.log && y.queued == Cap(Polled(x, y, seen)) && seen == |y.received|
       else Commanded(x, y, EXIT)
  }

  /** The machine is put back in its desired state, unless VICE is gone. */
  ghost predicate PutBack(x: Moment, y: Moment) {
    || (exists seen: nat :: Restored(x, y, seen))
    || (!y.open && y.state == x.state && y.machine.log == x.machine.log)
  }

  /** A stop told by the frames from k on, the queue included when nothing was
      read before; what was read before k told none. */
  ghost predicate StopHeard(x: Moment, received: seq<Response>, k: nat, info: StopInfo) {
    && |x.received| <= k <= |received|
    && var sooner, later := x.queued + EventsOf(received[|x.received|..k]), EventsOf(received[k..]);
    || (k == |x.received| && Tells(x.queued + later, info))
    || (Stopless(sooner) && Tells(later, info))
  }

  /** No stop among what was read; or nothing was read. */
  ghost predicate NoStopHeard(x: Moment, received: seq<Response>, queued: seq<Response>) {
    && x.received <= received
    && ((received == x.received && queued == x.queued)
        || (queued == [] && Stopless(x.queued + EventsOf(received[|x.received|..]))))
  }

  /** Waiting for a stop: no command is sent, and the state is stopped exactly on
      a stop reported, which the events tell.  Without one the window is over or
      the client was found gone, and no event read told any. */
  ghost predicate Waited(stays: Patience, window: nat, x: Moment, y: Moment, r: Result<Option<StopInfo>, Error>) {
    && y.machine.log == x.machine.log
    && y.state == (if r.Success? && r.value.Some? then HALTED else x.state)
    && (r.Success? && r.value.Some? ==> exists k: nat :: StopHeard(x, y.received, k, r.value.value))
    && (r == Success(None) ==>
          && NoStopHeard(x, y.received, y.queued)
          && (y.clock >= x.clock + window || (y.looks > x.looks && stays.Some? && y.looks > stays.value)))
  }

  lemma NoStopYet(x: Moment)
    ensures NoStopHeard(x, x.received, x.queued)
  {
  }

  /** One more slice of waiting: what it read follows what was read before. */
  lemma HeardOn(x: Moment, r1: seq<Response>, q1: seq<Response>, r2: seq<Response>, q2: seq<Response>)
    requires NoStopHeard(x, r1, q1) && r1 <= r2
    ensures forall info | q2 == [] && Tells(q1 + EventsOf(r2[|r1|..]), info) :: StopHeard(x, r2, |r1|, info)
    ensures r2 == r1 && q2 == q1 ==> NoStopHeard(x, r2, q2)
    ensures q2 == [] && Stopless(q1 + EventsOf(r2[|r1|..])) ==> NoStopHeard(x, r2, q2)
  {
    var r0 := x.received;
    assert r1[|r0|..] == r2[|r0|..|r1|];
    assert r2[|r0|..] == r1[|r0|..] + r2[|r1|..];
    EventsOfAppend(r1[|r0|..], r2[|r1|..]);
    assert [] + EventsOf(r2[|r1|..]) == EventsOf(r2[|r1|..]);
    hide Tells, EventsOf;
  }

  /** What run_until leaves: the machine as a run leaves it and the state as it
      should be.  Without the last arrival either time is over and the machine
      was started last, or the client was found gone and the checkpoint was
      deleted last. */
  ghost predicate RanUntil(stays: Patience, addr: u16, timeout: nat, count: int, x: Moment, y: Moment, r: Reached) {
    && r.count == count && Arrivals.Ran(x.machine, y.machine, addr, r.registers, r.reached, count)
    && y.state == (if r.registers.Some? then HALTED else RUNNING)
    && (r.registers.None? ==>
          && y.machine.log != []
          && var last := y.machine.log[|y.machine.log| - 1];
          || (last == EXIT && y.clock >= x.clock + timeout)
          || (last == CHECKPOINT_DELETE && y.looks > x.looks && stays.Some? && y.looks > stays.value))
  }

  /** step and finish: the command and the reading of the registers, as far as
      they got.  In between, finish waits for a stop, all of its patience if none
      is told. */
  ghost predicate Advanced(command: byte, patience: nat, x: Moment, y: Moment, done: bool) {
    && y.state == (if done then HALTED else x.state)
    && (y.machine.log == x.machine.log + [command, REGISTERS_GET]
        || (!done && (y.machine.log == x.machine.log || y.machine.log == x.machine.log + [command])))
    && (done && command == EXECUTE_UNTIL_RETURN ==> y.clock >= x.clock + patience || StopReceived(x, y))
  }

  /** A STOPPED event was queued, or received meanwhile. */
  ghost predicate StopReceived(x: Moment, y: Moment) {
    || (exists f :: f in x.queued && f.responseType == STOPPED)
    || (x.received <= y.received
        && exists f :: f in y.received[|x.received|..] && f.IsEvent() && f.responseType == STOPPED)
  }

  lemma StopTold(x: Moment, y: Moment, r1: seq<Response>, r2: seq<Response>, info: StopInfo)
    requires x.received <= r1 <= r2 <= y.received
    requires Tells(Cap(x.queued + EventsOf(r1[|x.received|..])) + EventsOf(r2[|r1|..]), info)
    ensures StopReceived(x, y)
  {
    var all := Cap(x.queued + EventsOf(r1[|x.received|..])) + EventsOf(r2[|r1|..]);
    var i: nat :| StopsAt(all, i, info);
    var f := all[i];
    assert f.responseType == STOPPED;
    hide Cap, EventsOf, StopsAt, Tells;
    EventsOfMembers(r1[|x.received|..]);
    EventsOfMembers(r2[|r1|..]);
    CapMembers(x.queued + EventsOf(r1[|x.received|..]));
    if f in EventsOf(r1[|x.received|..]) {
      SliceMember(f, |x.received|, r1, y.received);
    } else if f in EventsOf(r2[|r1|..]) {
      assert f in r2[|x.received|..];
      SliceMember(f, |x.received|, r2, y.received);
    } else {
      assert f in x.queued;
    }
  }

  lemma ReadAlready(short: seq<Response>, long: seq<Response>, n: nat)
    requires n <= |short| && short <= long
    ensures long[n..|short|] == short[n..|short|]
  {
  }

  lemma SliceMember(f: Response, n: nat, short: seq<Response>, long: seq<Response>)
    requires n <= |short| && short <= long && f in short[n..]
    ensures f in long[n..]
  {
    assert long == short + long[|short|..];
  }

  lemma StopStays(x: Moment, y: Moment, z: Moment)
    requires y.received <= z.received
    ensures StopReceived(x, y) ==> StopReceived(x, z)
  {
    assert x.received <= y.received ==> forall g | g in y.received[|x.received|..] :: g in z.received[|x.received|..];
  }

  lemma CapMembers(events: seq<Response>)
    ensures forall f | f in Cap(events) :: f in events
  {
  }

  /** One command, and VICE's own answer to it. */
  ghost predicate Asked(command: byte, body: seq<byte>, collectType: Option<byte>, x: Moment, y: Moment,
                        r: Result<Answer, Error>) {
    && y.state == x.state && Commanded(x, y, command)
    && (r.Success? ==>
          && x.nextId < EVENT_REQUEST_ID
          && exists met, o ::
               Answered(x.machine, met, y.machine, Request(x.nextId, command, collectType), body, o, r.value))
  }

  /** One request answered, verb by verb. */
  ghost predicate Answers(verb: Verb, stays: Patience, x: Moment, y: Moment, reply: Reply) {
    && Later(x, y) && (reply == Refusal(Closed) ==> !y.open)
    && if !verb.Allowed() then reply.Refusal? && y == x
       else
         match verb
         case Status => reply == Told(x.state) && y == x
         case Release => reply == Done && PutBack(x, y)
         case Resume =>
           && Commanded(x, y, EXIT)
           && if reply == Done then y.state == RUNNING && x.nextId < EVENT_REQUEST_ID
              else reply.Refusal? && y.state == x.state
         case WaitStop(window) =>
           if reply.Refusal? then Waited(stays, window, x, y, Failure(reply.error))
           else reply.Stopped? && Waited(stays, window, x, y, Success(reply.info))
         case Until(addr, timeout, count) =>
           reply.Refusal? || (reply.Ran? && RanUntil(stays, addr, timeout, count, x, y, reply.run))
         case Inspect(command, body, collectType) =>
           if reply.Refusal? then Asked(command, body, collectType, x, y, Failure(reply.error))
           else reply.Given? && Asked(command, body, collectType, x, y, Success(reply.answer))
         case Step(command, body) =>
           (reply == Done || reply.Refusal?) && Advanced(command, y.patience, x, y, reply == Done)
         case Quit =>
           && y.state == x.state && Commanded(x, y, QUIT)
           && (reply == Done || (reply.Refusal? && reply.error != Closed && reply.error != TimedOut))
  }

  /** One client from greeting to disconnect: its requests are answered one after
      the other up to one that ends the session, and if none does the machine is
      put back. */
  ghost predicate Handled(stays: Patience, verbs: seq<Verb>, x: Moment, y: Moment,
                          replies: seq<Reply>, steps: seq<Moment>) {
    && |steps| == |replies| + 1 && |replies| <= |verbs| && steps[0] == x.(looks := 0)
    && (forall k | 0 <= k < |replies| :: Answers(verbs[k], stays, steps[k], steps[k + 1], replies[k]))
    && (forall k | 0 <= k < |replies| ::
          replies[k] == Refusal(Closed) || (verbs[k] == Quit && replies[k] == Done)
          <==> y.quitting && k == |replies| - 1)
    && if y.quitting then replies != [] && y == steps[|replies|].(quitting := true)
       else |replies| == |verbs| && Later(steps[|replies|], y) && PutBack(steps[|replies|], y)
  }

  /** One activity.  An idle pump sends nothing, ends as the events it polled
      tell, and keeps them. */
  ghost predicate Follows(a: Activity, x: Moment, y: Moment) {
    match a
    case Idle =>
      && Later(x, y) && y.machine.log == x.machine.log
      && var polled := Polled(x, y, |y.received|);
      && y.state == LastSaid(polled, x.state) && y.queued == Cap(polled)
    case Client(stays, verbs) =>
      exists replies, steps :: Handled(stays, verbs, x, y, replies, steps)
  }

  /** A history of the activities carried out so far. */
  ghost predicate History(script: seq<Activity>, trace: seq<Moment>) {
    && 1 <= |trace| <= |script| + 1
    && forall k | 0 <= k < |trace| - 1 :: Follows(script[k], trace[k], trace[k + 1])
  }

  /** Whether an idle pump between two moments was told last that it runs. */
  ghost predicate ToldRunning(a: Activity, x: Moment, y: Moment) {
    a.Idle? && x.received <= y.received && LastSaid(Polled(x, y, |y.received|), x.state) == RUNNING
  }

  lemma NoExit(a: Machine, b: Machine, command: byte)
    requires command != EXIT && (b.log == a.log || b.log == a.log + [command])
    ensures multiset(b.log)[0xAA] == multiset(a.log)[0xAA]
  {
  }

  lemma NoExits(a: Machine, b: Machine, command: byte, more: byte)
    requires command != EXIT && more != EXIT && b.log == a.log + [command, more]
    ensures multiset(b.log)[0xAA] == multiset(a.log)[0xAA]
  {
  }

  lemma PutBackQuiet(x: Moment, y: Moment)
    requires PutBack(x, y) && x.state == HALTED
    ensures y.state == HALTED && y.machine.log == x.machine.log
  {
  }

  /** No request but one to run the machine starts a stopped one. */
  lemma AnswersQuiet(verb: Verb, stays: Patience, x: Moment, y: Moment, reply: Reply)
    requires Answers(verb, stays, x, y, reply) && verb.Quiet() && x.state == HALTED
    ensures y.state == HALTED && multiset(y.machine.log)[0xAA] == multiset(x.machine.log)[0xAA]
  {
    hide PutBack, Later, Answered;
    if verb.Allowed() {
      match verb
      case Release => PutBackQuiet(x, y);
      case Inspect(command, body, collectType) => NoExit(x.machine, y.machine, command);
      case Step(command, body) =>
        if y.machine.log == x.machine.log + [command, REGISTERS_GET] {
          NoExits(x.machine, y.machine, command, REGISTERS_GET);
        } else {
          NoExit(x.machine, y.machine, command);
        }
      case Quit => NoExit(x.machine, y.machine, QUIT);
      case _ =>
    }
  }

  lemma {:induction false} StepsQuiet(stays: Patience, verbs: seq<Verb>, replies: seq<Reply>,
                                      steps: seq<Moment>, n: nat)
    requires n <= |replies| <= |verbs| && |steps| == |replies| + 1 && AllQuiet(verbs) && steps[0].state == HALTED
    requires forall k | 0 <= k < |replies| :: Answers(verbs[k], stays, steps[k], steps[k + 1], replies[k])
    ensures steps[n].state == HALTED && multiset(steps[n].machine.log)[0xAA] == multiset(steps[0].machine.log)[0xAA]
  {
    if n > 0 {
      StepsQuiet(stays, verbs, replies, steps, n - 1);
      assert verbs[n - 1] in verbs;
      AnswersQuiet(verbs[n - 1], stays, steps[n - 1], steps[n], replies[n - 1]);
    }
  }

  /** A whole session of quiet requests leaves a stopped machine stopped. */
  lemma HandledQuiet(stays: Patience, verbs: seq<Verb>, x: Moment, y: Moment, replies: seq<Reply>, steps: seq<Moment>)
    requires Handled(stays, verbs, x, y, replies, steps) && AllQuiet(verbs) && x.state == HALTED
    ensures y.state == HALTED && multiset(y.machine.log)[0xAA] == multiset(x.machine.log)[0xAA]
  {
    hide Answers, PutBack;
    StepsQuiet(stays, verbs, replies, steps, |replies|);
    if !y.quitting {
      PutBackQuiet(steps[|replies|], y);
    }
  }

  /** A parked machine receives no EXIT and stays parked, whatever the script,
      until a client asks to run or a pump is told last that it runs. */
  lemma {:induction false} ParkedStaysParked(script: seq<Activity>, trace: seq<Moment>, n: nat)
    requires History(script, trace) && n < |trace| && trace[0].state == HALTED
    requires forall k | 0 <= k < n && script[k].Client? :: AllQuiet(script[k].verbs)
    requires forall k | 0 <= k < n :: !ToldRunning(script[k], trace[k], trace[k + 1])
    ensures trace[n].state == HALTED && multiset(trace[n].machine.log)[0xAA] == multiset(trace[0].machine.log)[0xAA]
  {
    hide Handled, LastSaid, EventsOf, Cap;
    if n > 0 {
      ParkedStaysParked(script, trace, n - 1);
      var a, x, y := script[n - 1], trace[n - 1], trace[n];
      assert Follows(a, x, y);
      if a.Client? {
        var replies, steps :| Handled(a.stays, a.verbs, x, y, replies, steps);
        HandledQuiet(a.stays, a.verbs, x, y, replies, steps);
      }
    }
  }

  /** Whoever was served, and whatever was asked: with the state running the last
      command sent is EXIT, so no client leaves a machine that should run
      frozen. */
  lemma ServedRunning(a: Activity, x: Moment, y: Moment)
    requires a.Client? && Follows(a, x, y) && y.state == RUNNING && y.open && !y.quitting
    requires y.nextId < EVENT_REQUEST_ID
    ensures y.machine.log != [] && y.machine.log[|y.machine.log| - 1] == EXIT
  {
    hide Answers, Parks, EventsOf;
    var replies, steps :| Handled(a.stays, a.verbs, x, y, replies, steps);
    var z := steps[|replies|];
    assert Later(z, y) && PutBack(z, y);
  }

  lemma HistoryGrows(script: seq<Activity>, trace: seq<Moment>, y: Moment)
    requires History(script, trace) && |trace| <= |script| && Follows(script[|trace| - 1], trace[|trace| - 1], y)
    ensures History(script, trace + [y])
  {
    hide Follows;
  }

  class PetDaemon {
    const mon: MonitorClient
    var state: RunState
    var quitting: bool
    /** How often the present client was looked at while it waited. */
    var looks: nat

    constructor (mon: MonitorClient)
      requires mon.Valid()
      ensures this.mon == mon && state == RUNNING && !quitting
    {
      this.mon := mon;
      state, quitting, looks := RUNNING, false, 0;
    }

    ghost predicate Valid()
      reads this, mon, mon.vice, mon.decoder
    {
      mon.Valid()
    }

    ghost function Now(): Moment
      reads this, mon, mon.vice
    {
      var vice := mon.vice;
      Moment(state, vice.machine, mon.nextId, mon.received, mon.events, vice.open, vice.clock, looks, quitting,
             mon.timeout)
    }

    /** Is the waiting client still there? */
    method Gone(stays: Patience) returns (gone: bool)
      modifies this`looks
      ensures looks == old(looks) + 1 && gone == (stays.Some? && looks > stays.value)
    {
      looks := looks + 1;
      gone := stays.Some? && looks > stays.value;
    }

    /** Starts the halted machine for the next arrival. */
    method Launch(ghost n: u32, ghost addr: u16, ghost i: nat) returns (r: Result<(), Error>)
      requires Valid() && Armed(mon.vice.machine, n, addr, i) && Hits(mon.vice.inFlight, n) == 0
      modifies this`state, mon`events, mon`pending, mon`nextId, mon`received, mon.vice, mon.decoder
      ensures Valid() && mon.Onward(old(mon.At()))
      ensures r == Failure(Closed) ==> !mon.vice.open
      ensures r.Success? ==> state == RUNNING
                             && Tracking(mon.vice.machine, n, addr, i)
                             && mon.Unread(n) + i <= mon.vice.machine.fired[n]
                             && Keeps(old(mon.vice.machine), mon.vice.machine, n)
    {
      hide Drift, Find, EncodeAll, Machine.Valid, OnWire, Unasked, Issued, Keeps;
      r := Arrivals.Launch(mon, n, addr, i);
      if r.Success? {
        state := RUNNING;
      }
    }

    /** Waits until checkpoint n has fired once more: told by the event, or by
        the flag in the checkpoint list when the event was lost. */
    method AwaitArrival(n: u32, ghost addr: u16, i: nat, deadline: nat, stays: Patience)
      returns (r: Result<Arrival, Error>)
      requires Valid() && Tracking(mon.vice.machine, n, addr, i) && mon.Unread(n) + i <= mon.vice.machine.fired[n]
      requires state == RUNNING
      modifies this`state, this`looks, mon`events, mon`pending, mon`nextId, mon`received, mon.vice, mon.decoder
      ensures Valid() && mon.Onward(old(mon.At()))
      ensures (r == Failure(Closed) ==> !mon.vice.open) && looks >= old(looks)
      ensures r == Success(Arrived) ==> Armed(mon.vice.machine, n, addr, i + 1) && mon.vice.machine.pc == addr
                                        && Hits(mon.vice.inFlight, n) == 0
      ensures r.Success? && r.value != Arrived ==> Tracking(mon.vice.machine, n, addr, i)
      ensures r.Success? ==> state == RUNNING && Keeps(old(mon.vice.machine), mon.vice.machine, n)
      ensures r == Success(OutOfTime) ==> mon.vice.clock >= deadline
      ensures r == Success(Vanished) ==> looks > old(looks) && stays.Some? && looks > stays.value
    {
      hide Drift, Find, EncodeAll, Machine.Valid, OnWire, Unasked, Issued, Hits, Keeps, Armed, Tracking;
      hide MonitorClient.Valid, MonitorClient.Stream, Forward;
      ghost var m0, at0 := mon.vice.machine, mon.At();
      KeepsSelf(m0, n);
      ForwardSelf(at0);
      while true
        invariant Valid() && Forward(at0, mon.At()) && looks >= old(looks)
        invariant Tracking(mon.vice.machine, n, addr, i) && state == RUNNING
        invariant mon.Unread(n) + i <= mon.vice.machine.fired[n] && Keeps(m0, mon.vice.machine, n)
        decreases deadline - mon.vice.clock
      {
        ghost var at1 := mon.At();
        var now := mon.Clock();
        ForwardTrans(at0, at1, mon.At());
        if now >= deadline {
          return Success(OutOfTime);
        }
        ghost var m1, at2 := mon.vice.machine, mon.At();
        var arrived := Look(mon, n, addr, i, if deadline - now < SLICE then deadline - now else SLICE);
        ForwardTrans(at0, at2, mon.At());
        if arrived.Failure? {
          return Failure(arrived.error);
        }
        KeepsTrans(m0, m1, mon.vice.machine, n);
        if arrived.value {
          return Success(Arrived);
        }
        ghost var m3, at3 := mon.vice.machine, mon.At();
        var launched := Launch(n, addr, i);
        ForwardTrans(at0, at3, mon.At());
        ForwardTrans(at2, at3, mon.At());
        if launched.Failure? {
          return Failure(launched.error);
        }
        KeepsTrans(m0, m3, mon.vice.machine, n);
        var gone := Gone(stays);
        if gone {
          return Success(Vanished);
        }
      }
    }

    /** Starts the machine and waits for the next arrival. */
    method NextArrival(n: u32, ghost addr: u16, i: nat, deadline: nat, stays: Patience)
      returns (r: Result<Arrival, Error>)
      requires Valid() && Armed(mon.vice.machine, n, addr, i) && Hits(mon.vice.inFlight, n) == 0
      modifies this`state, this`looks, mon`events, mon`pending, mon`nextId, mon`received, mon.vice, mon.decoder
      ensures Valid() && mon.Onward(old(mon.At()))
      ensures (r == Failure(Closed) ==> !mon.vice.open) && looks >= old(looks)
      ensures r == Success(Arrived) ==> Armed(mon.vice.machine, n, addr, i + 1) && mon.vice.machine.pc == addr
                                        && Hits(mon.vice.inFlight, n) == 0
      ensures r.Success? && r.value != Arrived ==> Tracking(mon.vice.machine, n, addr, i)
      ensures r.Success? ==> state == RUNNING && Keeps(old(mon.vice.machine), mon.vice.machine, n)
      ensures r == Success(OutOfTime) ==> mon.vice.clock >= deadline
      ensures r == Success(Vanished) ==> looks > old(looks) && stays.Some? && looks > stays.value
    {
      hide Drift, Find, EncodeAll, Machine.Valid, OnWire, Unasked, Issued, Hits, Keeps, Armed, Tracking;
      hide MonitorClient.Valid, MonitorClient.Stream, Forward;
      ghost var m0, at0 := mon.vice.machine, mon.At();
      var launched := Launch(n, addr, i);
      if launched.Failure? {
        return Failure(launched.error);
      }
      ghost var m1, at1 := mon.vice.machine, mon.At();
      r := AwaitArrival(n, addr, i, deadline, stays);
      ForwardTrans(at0, at1, mon.At());
      if r.Success? {
        KeepsTrans(m0, m1, mon.vice.machine, n);
      }
    }

    /** The arrivals one after the other: all of them, or i until it ended. */
    method AwaitAll(n: u32, ghost addr: u16, count: int, deadline: nat, stays: Patience)
      returns (r: Result<Arrival, Error>, i: nat)
      requires Valid() && Armed(mon.vice.machine, n, addr, 0) && Hits(mon.vice.inFlight, n) == 0
      modifies this`state, this`looks, mon`events, mon`pending, mon`nextId, mon`received, mon.vice, mon.decoder
      ensures Valid() && mon.Onward(old(mon.At()))
      ensures (r == Failure(Closed) ==> !mon.vice.open) && looks >= old(looks)
      ensures r.Success? ==> Keeps(old(mon.vice.machine), mon.vice.machine, n)
      ensures r == Success(Arrived) ==> Armed(mon.vice.machine, n, addr, i) && i == (if count > 0 then count else 0)
                                        && (i > 0 ==> mon.vice.machine.pc == addr)
      ensures r.Success? && r.value != Arrived ==>
                Tracking(mon.vice.machine, n, addr, i) && i < count && state == RUNNING
      ensures r == Success(OutOfTime) ==> mon.vice.clock >= deadline
      ensures r == Success(Vanished) ==> looks > old(looks) && stays.Some? && looks > stays.value
    {
      hide Drift, Find, EncodeAll, Machine.Valid, OnWire, Unasked, Issued, Hits, Armed, Tracking, Keeps;
      hide RegisterFile, Machine.File, MonitorClient.Valid, MonitorClient.InStep, MonitorClient.Stream, Forward;
      ghost var m0, at0 := mon.vice.machine, mon.At();
      KeepsSelf(m0, n);
      ForwardSelf(at0);
      i := 0;
      while i < count
        invariant Valid() && Forward(at0, mon.At()) && looks >= old(looks)
        invariant 0 <= i && (i <= count || i == 0)
        invariant Armed(mon.vice.machine, n, addr, i) && Hits(mon.vice.inFlight, n) == 0
        invariant Keeps(m0, mon.vice.machine, n)
        invariant 0 < i ==> mon.vice.machine.pc == addr
      {
        ghost var m1, at1 := mon.vice.machine, mon.At();
        r := NextArrival(n, addr, i, deadline, stays);
        ForwardTrans(at0, at1, mon.At());
        if r.Failure? {
          return;
        }
        KeepsTrans(m0, m1, mon.vice.machine, n);
        if r.value != Arrived {
          return;
        }
        i := i + 1;
      }
      r := Success(Arrived);
    }

    /** Runs until addr was executed count times and leaves the machine halted
        at the last arrival.  When time runs out or the client vanishes the
        checkpoint is deleted; out of time, the machine is started again. */
    method RunUntil(addr: u16, timeout: nat, count: int, stays: Patience) returns (r: Result<Reached, Error>)
      requires Valid()
      modifies this`state, this`looks, mon`events, mon`pending, mon`nextId, mon`received, mon.vice, mon.decoder
      ensures Valid() && mon.Onward(old(mon.At()))
      ensures r == Failure(Closed) ==> !mon.vice.open
      ensures r.Success? ==> RanUntil(stays, addr, timeout, count, old(Now()), Now(), r.value)
    {
      hide Drift, Find, EncodeAll, Machine.Valid, OnWire, Unasked, Issued;
      hide Hits, ClearHits, Remove, Armed, Tracking, Keeps, OneMore;
      hide RegisterFile, RanUntil, Machine.File, Arrivals.Ran, Forward;
      hide MonitorClient.Valid, MonitorClient.InStep, MonitorClient.Stream;
      ghost var x, at0 := Now(), mon.At();
      var start := mon.Clock();
      ghost var m0, at1 := mon.vice.machine, mon.At();
      var planted := Plant(mon, addr);
      ForwardTrans(at0, at1, mon.At());
      if planted.Failure? {
        return Failure(planted.error);
      }
      var n := planted.value;
      OneMoreIs(m0, mon.vice.machine, n);
      ghost var m1, at2 := mon.vice.machine, mon.At();
      var arrival, i := AwaitAll(n, addr, count, start + timeout, stays);
      ForwardTrans(at0, at2, mon.At());
      if arrival.Failure? {
        return Failure(arrival.error);
      }
      OneMoreKept(m0, m1, mon.vice.machine, n);
      ghost var m2, at3 := mon.vice.machine, mon.At();
      if arrival.value != Arrived {
        var withdrawn := Withdraw(mon, n, addr, i, arrival.value == OutOfTime);
        ForwardTrans(at0, at3, mon.At());
        if withdrawn.Failure? {
          return Failure(withdrawn.error);
        }
        OneMoreKept(m0, m2, mon.vice.machine, n);
        if arrival.value == OutOfTime {
          state := RUNNING;
        }
        EndsEarly(x, m2, Now(), n, addr, i, timeout, count, stays, arrival.value == OutOfTime);
        return Success(Reached(None, i, count));
      }
      var regs := Harvest(mon, n, addr, i);
      ForwardTrans(at0, at3, mon.At());
      if regs.Failure? {
        return Failure(regs.error);
      }
      OneMoreKept(m0, m2, mon.vice.machine, n);
      state := HALTED;
      EndsArrived(x, Now(), n, addr, i, timeout, count, stays, regs.value);
      r := Success(Reached(Some(regs.value), count, count));
    }

    // ---------- the desired state between commands ----------

    /** Puts polled events back in the queue for a later wait. */
    method Requeue(evs: seq<Response>)
      requires Valid() && mon.events == [] && Unasked(evs)
      modifies mon`events
      ensures Valid() && mon.events == Cap(evs)
    {
      assert Cap([]) == [] == evs[..0];
      hide Hits, EncodeAll, Cap, Machine.Valid, OnWire, Issued, AllEncodable, GoodEvent;
      for k := 0 to |evs|
        invariant mon.events == Cap(evs[..k])
      {
        CapAppend(evs[..k], [evs[k]]);
        assert evs[..k + 1] == evs[..k] + [evs[k]];
        mon.events := Cap(mon.events + [evs[k]]);
      }
      assert evs[..|evs|] == evs;
      CapUnasked(evs);
    }

    /** Polls and keeps the events for later; None when VICE is gone.  What was
        polled is what was queued and what the wire delivered meanwhile. */
    method Poll() returns (polled: Option<seq<Response>>, ghost sent: seq<Response>)
      requires Valid()
      modifies mon`events, mon`pending, mon`received, mon.vice, mon.decoder
      ensures Valid() && mon.Onward(old(mon.At()))
      ensures Elapse(old(mon.vice.machine), mon.vice.machine, sent) && mon.Stream() == old(mon.Stream()) + sent
      ensures mon.vice.machine.log == old(mon.vice.machine.log)
      ensures polled.Some? ==>
                polled.value == Polled(old(Now()), Now(), |mon.received|) && mon.events == Cap(polled.value)
      ensures polled.None? ==> !mon.vice.open
    {
      hide Hits, EncodeAll, EventsOf, RepliesOf, Drift, Elapse;
      hide Machine.Valid, OnWire, Unasked, AllEncodable, Cap, Issued;
      ghost var m0, r0, f0 := mon.vice.machine, mon.received, mon.vice.inFlight;
      var r;
      ghost var got;
      r, got, sent := mon.PollEvents(50, false);
      DriftKeepsLog(m0, mon.vice.machine, sent);
      ConcatAssoc(r0, got, mon.vice.inFlight);
      ConcatAssoc(r0, f0, sent);
      assert mon.received[|r0|..] == got && mon.received[|r0|..|mon.received|] == got;
      if r.Failure? {
        return None, sent;
      }
      Requeue(r.value);
      polled := Some(r.value);
    }

    /** The idle pump. False when VICE is gone. */
    method PumpViceEvents() returns (alive: bool)
      requires Valid()
      modifies this`state, mon`events, mon`pending, mon`received, mon.vice, mon.decoder
      ensures Valid() && mon.Onward(old(mon.At()))
      ensures alive ==> Follows(Idle, old(Now()), Now())
      ensures !alive ==> state == old(state) && mon.vice.machine.log == old(mon.vice.machine.log) && !mon.vice.open
    {
      hide Hits, EncodeAll, EventsOf, RepliesOf, Drift, Elapse, LastSaid;
      hide Machine.Valid, OnWire, Unasked, AllEncodable, Cap, Issued;
      var polled, sent := Poll();
      if polled.None? {
        return false;
      }
      state := FoldSaid(polled.value, state);
      alive := true;
    }

    /** Release or disconnect: parks if a hit came in meanwhile, and starts the
        machine exactly when it should be running. */
    method Restore()
      requires Valid()
      modifies this`state, mon`events, mon`pending, mon`nextId, mon`received, mon.vice, mon.decoder
      ensures Valid() && mon.Onward(old(mon.At()))
      ensures PutBack(old(Now()), Now())
    {
      hide Hits, EncodeAll, EventsOf, RepliesOf, Drift, Elapse, Machine.Valid;
      hide OnWire, Unasked, AllEncodable, Cap, Issued, Parks;
      ghost var x := Now();
      var polled, sent := Poll();
      if polled.None? {
        return;
      }
      ghost var r1 := mon.received;
      var park := FoldParks(polled.value);
      if park {
        state := HALTED;
      }
      if state == RUNNING {
        var resumed, met := mon.Resume();
        ReadAlready(r1, mon.received, |x.received|);
      }
      assert Restored(x, Now(), |r1|);
    }

    // ---------- serving clients ----------

    /** One client request. */
    method Dispatch(verb: Verb, stays: Patience) returns (r: Reply)
      requires Valid()
      modifies this`state, this`looks, mon`events, mon`pending, mon`nextId, mon`received, mon.vice, mon.decoder
      ensures Valid() && Answers(verb, stays, old(Now()), Now(), r)
    {
      hide Hits, EncodeAll, Drift, Elapse, Machine.Valid, OnWire, Unasked, AllEncodable, Cap, Issued, Execute, Take;
      hide ReplyFrames, Parks, RanUntil, PutBack, Waited, Asked, Advanced, Logged, Ledger, Tells;
      hide MonitorClient.Valid, MonitorClient.Stream, MonitorClient.InStep, MonitorClient.Quiet;
      if !verb.Allowed() {
        return Refusal(Garbled);
      }
      match verb
      case Status =>
        return Told(state);
      case Release =>
        Restore();
        return Done;
      case Resume =>
        var resumed, met := mon.Resume();
        if resumed.Failure? {
          return Refusal(resumed.error);
        }
        state := RUNNING;
        return Done;
      case WaitStop(window) =>
        var info := AwaitStop(window, stays);
        return if info.Failure? then Refusal(info.error) else Stopped(info.value);
      case Until(addr, timeout, count) =>
        var run := RunUntil(addr, timeout, count, stays);
        return if run.Failure? then Refusal(run.error) else Ran(run.value);
      case Inspect(command, body, collectType) =>
        var answer := Ask(command, body, collectType);
        return if answer.Failure? then Refusal(answer.error) else Given(answer.value);
      case Step(command, body) =>
        var stepped := Advance(command, body);
        return if stepped.Failure? then Refusal(stepped.error) else Done;
      case Quit =>
        r := Leave();
    }

    /** The client's quit takes a lost or silent connection for an answer. */
    method Leave() returns (r: Reply)
      requires Valid()
      modifies mon`events, mon`pending, mon`nextId, mon`received, mon.vice, mon.decoder
      ensures Valid() && mon.Onward(old(mon.At())) && Commanded(old(Now()), Now(), QUIT)
      ensures r == Done || (r.Refusal? && r.error != Closed && r.error != TimedOut)
    {
      hide Hits, EncodeAll, Drift, Elapse, Machine.Valid, OnWire, Unasked, AllEncodable, Cap, Issued, Execute, Take;
      var answer, met, o := mon.Command(QUIT, [], None);
      if answer.Failure? && answer.error != Closed && answer.error != TimedOut {
        return Refusal(answer.error);
      }
      return Done;
    }

    /** One monitor command. */
    method Ask(command: byte, body: seq<byte>, collectType: Option<byte>) returns (r: Result<Answer, Error>)
      requires Valid() && command != EXIT && CollectsList(Request(0, command, collectType))
      modifies mon`events, mon`pending, mon`nextId, mon`received, mon.vice, mon.decoder
      ensures Valid() && mon.Onward(old(mon.At())) && (r == Failure(Closed) ==> !mon.vice.open)
      ensures Asked(command, body, collectType, old(Now()), Now(), r)
    {
      hide Hits, EncodeAll, Drift, Elapse, Machine.Valid, OnWire, Unasked, AllEncodable, Cap, Issued, Execute, Take;
      hide ReplyFrames, MonitorClient.Stream, MonitorClient.InStep, Ledger;
      ghost var m0, id := mon.vice.machine, mon.nextId;
      ghost var met, o;
      r, met, o := mon.Command(command, body, collectType);
      if r.Success? {
        DriftRefl(mon.vice.machine);
        assert Answered(m0, met, mon.vice.machine, Request(id, command, collectType), body, o, r.value);
      }
    }

    /** step and finish: the command, for finish a wait for the stop, and the
        registers. */
    method Advance(command: byte, body: seq<byte>) returns (r: Result<(), Error>)
      requires Valid() && (command == ADVANCE_INSTRUCTIONS || command == EXECUTE_UNTIL_RETURN)
      modifies this`state, mon`events, mon`pending, mon`nextId, mon`received, mon.vice, mon.decoder
      ensures Valid() && mon.Onward(old(mon.At())) && (r == Failure(Closed) ==> !mon.vice.open)
      ensures Advanced(command, mon.timeout, old(Now()), Now(), r.Success?)
    {
      hide Hits, EncodeAll, Drift, Elapse, Machine.Valid, OnWire, Unasked, AllEncodable, Cap, Issued, Execute, Take;
      hide ReplyFrames, RegisterFile, Ledger, Machine.File, Forward, StopReceived, EventsOf;
      hide MonitorClient.Valid, MonitorClient.Stream, MonitorClient.InStep;
      ghost var x, log, at0 := Now(), mon.vice.machine.log, mon.At();
      var answer, met, o := mon.Command(command, body, None);
      if answer.Failure? {
        return Failure(answer.error);
      }
      ghost var at1 := mon.At();
      ForwardTrans(at0, at0, at1);
      if command == EXECUTE_UNTIL_RETURN {
        r := AwaitFinish(x);
        ForwardTrans(at0, at1, mon.At());
        if r.Failure? {
          return;
        }
      }
      var regs;
      ghost var z, m2, at2 := Now(), mon.vice.machine, mon.At();
      regs, met := mon.Registers();
      ForwardTrans(at0, at2, mon.At());
      assert log + [command] + [REGISTERS_GET] == log + [command, REGISTERS_GET];
      if regs.Failure? {
        return Failure(regs.error);
      }
      DriftOne(m2, met, 0);
      state := HALTED;
      StopStays(x, z, Now());
      r := Success(());
    }

    /** The wait of finish, after its command. */
    method AwaitFinish(ghost x: Moment) returns (r: Result<(), Error>)
      requires Valid() && x.received <= mon.received && x.clock <= mon.vice.clock
      requires mon.events == Cap(x.queued + EventsOf(mon.received[|x.received|..]))
      modifies mon`events, mon`pending, mon`received, mon.vice, mon.decoder
      ensures Valid() && mon.Onward(old(mon.At())) && (r == Failure(Closed) ==> !mon.vice.open)
      ensures mon.vice.machine.log == old(mon.vice.machine.log)
      ensures r.Success? ==> mon.vice.clock >= x.clock + mon.timeout || StopReceived(x, Now())
    {
      hide Hits, EncodeAll, Drift, Elapse, Machine.Valid, OnWire, Unasked, AllEncodable, Cap, Issued;
      hide Tells, Ledger, Bumped, StopReceived, EventsOf, MonitorClient.Valid, MonitorClient.Stream;
      ghost var m1, r1 := mon.vice.machine, mon.received;
      var info := mon.WaitForStop(mon.timeout);
      DriftOne(m1, mon.vice.machine, 0);
      if info.Failure? {
        return Failure(info.error);
      }
      if info.value.Some? {
        StopTold(x, Now(), r1, mon.received, info.value.value);
      }
      r := Success(());
    }

    /** Waiting for a stop, slice by slice, while the client stays. */
    method AwaitStop(window: nat, stays: Patience) returns (r: Result<Option<StopInfo>, Error>)
      requires Valid()
      modifies this`state, this`looks, mon`events, mon`pending, mon`received, mon.vice, mon.decoder
      ensures Valid() && mon.Onward(old(mon.At())) && (r == Failure(Closed) ==> !mon.vice.open)
      ensures Waited(stays, window, old(Now()), Now(), r)
    {
      hide Hits, EncodeAll, Drift, Elapse, Machine.Valid, OnWire, Unasked, AllEncodable, Cap, Issued, Tells;
      hide MonitorClient.Valid, MonitorClient.InStep, MonitorClient.Stream, Forward, Ledger, Bumped, EventsOf;
      hide NoStopHeard, StopHeard, Stopless;
      ghost var x, at0 := Now(), mon.At();
      NoStopYet(x);
      var start := mon.Clock();
      var deadline := start + window;
      while true
        invariant Valid() && state == old(state) && Forward(at0, mon.At()) && looks >= old(looks)
        invariant mon.vice.machine.log == old(mon.vice.machine.log) && NoStopHeard(x, mon.received, mon.events)
        decreases deadline - mon.vice.clock
      {
        ghost var at1 := mon.At();
        var now := mon.Clock();
        ForwardTrans(at0, at1, mon.At());
        if now >= deadline {
          return Success(None);
        }
        ghost var m1, at2, r1, q1 := mon.vice.machine, mon.At(), mon.received, mon.events;
        r := mon.WaitForStop(if deadline - now < SLICE then deadline - now else SLICE);
        DriftOne(m1, mon.vice.machine, 0);
        ForwardTrans(at0, at2, mon.At());
        if r.Failure? {
          return;
        }
        HeardOn(x, r1, q1, mon.received, mon.events);
        if r.value.Some? {
          assert StopHeard(x, mon.received, |r1|, r.value.value);
          state := HALTED;
          return;
        }
        var gone := Gone(stays);
        if gone {
          return Success(None);
        }
      }
    }

    /** One client from greeting to disconnect.  Errors other than a lost VICE
        connection are handed to the client and do not end its session. */
    method Handle(verbs: seq<Verb>, stays: Patience) returns (replies: seq<Reply>, ghost steps: seq<Moment>)
      requires Valid() && !quitting
      modifies this`state, this`quitting, this`looks
      modifies mon`events, mon`pending, mon`nextId, mon`received, mon.vice, mon.decoder
      ensures Valid() && Handled(stays, verbs, old(Now()), Now(), replies, steps)
    {
      hide Hits, EncodeAll, Drift, Elapse, Machine.Valid, OnWire, Unasked, AllEncodable, Cap, Issued, Parks;
      hide Answers, PutBack, MonitorClient.Stream, MonitorClient.InStep;
      looks := 0;
      replies, steps := [], [Now()];
      while |replies| < |verbs|
        invariant Valid() && !quitting && |replies| <= |verbs|
        invariant |steps| == |replies| + 1 && steps[0] == old(Now()).(looks := 0) && steps[|replies|] == Now()
        invariant forall k | 0 <= k < |replies| :: Answers(verbs[k], stays, steps[k], steps[k + 1], replies[k])
        invariant forall k | 0 <= k < |replies| ::
                    replies[k] != Refusal(Closed) && !(verbs[k] == Quit && replies[k] == Done)
        decreases |verbs| - |replies|
      {
        var verb := verbs[|replies|];
        var r := Dispatch(verb, stays);
        replies, steps := replies + [r], steps + [Now()];
        if r == Refusal(Closed) || (verb == Quit && r == Done) {
          quitting := true;
          return;
        }
      }
      Restore();
    }

    /** A run of the daemon: idle pumping and clients in any order, until VICE
        is gone or a client quits it. */
    method Serve(script: seq<Activity>) returns (alive: bool, ghost trace: seq<Moment>)
      requires Valid() && !quitting
      modifies this`state, this`quitting, this`looks
      modifies mon`events, mon`pending, mon`nextId, mon`received, mon.vice, mon.decoder
      ensures Valid() && History(script, trace) && trace[0] == old(Now())
      ensures alive ==> |trace| == |script| + 1
      ensures alive || quitting ==> trace[|trace| - 1] == Now()
      ensures !alive && !quitting ==>
                var last := trace[|trace| - 1];
                !mon.vice.open && last.state == state && last.machine.log == mon.vice.machine.log
      ensures old(state) == HALTED && (forall a | a in script :: a.Client? && AllQuiet(a.verbs)) ==>
                state == HALTED && multiset(mon.vice.machine.log)[0xAA] == old(multiset(mon.vice.machine.log)[0xAA])
    {
      hide Hits, EncodeAll, Drift, Elapse, Machine.Valid, OnWire, Unasked, AllEncodable, Cap, Issued;
      hide Follows, Handled, MonitorClient.Stream, MonitorClient.InStep;
      trace := [Now()];
      alive := true;
      for k := 0 to |script|
        invariant Valid() && !quitting && |trace| == k + 1
        invariant trace[0] == old(Now()) && trace[k] == Now() && History(script, trace)
      {
        match script[k] {
          case Idle =>
            var more := PumpViceEvents();
            if !more {
              alive := false;
              break;
            }
          case Client(stays, verbs) =>
            var replies, steps := Handle(verbs, stays);
            HandledFollows(stays, verbs, trace[k], Now(), replies, steps);
        }
        HistoryGrows(script, trace, Now());
        trace := trace + [Now()];
        if quitting {
          alive := false;
          break;
        }
      }
      ClientsOnly(script, trace);
    }
  }

  lemma HandledFollows(stays: Patience, verbs: seq<Verb>, x: Moment, y: Moment, replies: seq<Reply>, steps: seq<Moment>)
    requires Handled(stays, verbs, x, y, replies, steps)
    ensures Follows(Client(stays, verbs), x, y)
  {
  }

  lemma ClientsOnly(script: seq<Activity>, trace: seq<Moment>)
    requires History(script, trace)
    ensures trace[0].state == HALTED && (forall a | a in script :: a.Client? && AllQuiet(a.verbs)) ==>
              && trace[|trace| - 1].state == HALTED
              && multiset(trace[|trace| - 1].machine.log)[0xAA] == multiset(trace[0].machine.log)[0xAA]
  {
    hide Follows;
    if trace[0].state == HALTED && forall a | a in script :: a.Client? && AllQuiet(a.verbs) {
      ParkedStaysParked(script, trace, |trace| - 1);
    }
  }

  lemma EndsEarly(x: Moment, m2: Machine, y: Moment, n: u32, addr: u16, i: nat, timeout: nat, count: int,
                  stays: Patience, late: bool)
    requires OneMore(x.machine, y.machine, n) && x.machine.fired[n] == 0 && Find(y.machine.checkpoints, n).None?
    requires i < count && i <= y.machine.fired[n] <= i + 1 && y.state == RUNNING
    requires if late then y.clock >= x.clock + timeout else y.looks > x.looks && stays.Some? && y.looks > stays.value
    requires y.machine.log == m2.log + (if late then [CHECKPOINT_DELETE, EXIT] else [CHECKPOINT_DELETE])
    ensures RanUntil(stays, addr, timeout, count, x, y, Reached(None, i, count))
  {
  }

  lemma EndsArrived(x: Moment, y: Moment, n: u32, addr: u16, i: nat, timeout: nat, count: int, stays: Patience,
                    file: map<byte, u16>)
    requires OneMore(x.machine, y.machine, n) && x.machine.fired[n] == 0 && Find(y.machine.checkpoints, n).None?
    requires y.machine.fired[n] == i && i == (if count > 0 then count else 0) && y.state == HALTED
    requires !y.machine.running && file == y.machine.File() && (i > 0 ==> y.machine.pc == addr)
    ensures RanUntil(stays, addr, timeout, count, x, y, Reached(Some(file), count, count))
  {
  }

  lemma CapUnasked(evs: seq<Response>)
    requires Unasked(evs)
    ensures Unasked(Cap(evs))
  {
    CapMembers(evs);
  }

  lemma DriftKeepsLog(a: Machine, b: Machine, sent: seq<Response>)
    requires Elapse(a, b, sent)
    ensures b.log == a.log
  {
    DriftOne(a, b, 0);
  }

  method FoldSaid(events: seq<Response>, state: RunState) returns (said: RunState)
    ensures said == LastSaid(events, state)
  {
    said := state;
    for k := 0 to |events|
      invariant said == LastSaid(events[..k], state)
    {
      assert events[..k + 1] == events[..k] + [events[k]];
      LastSaidAppend(events[..k], [events[k]], state);
      if events[k].responseType == STOPPED {
        said := HALTED;
      } else if events[k].responseType == RESUMED {
        said := RUNNING;
      }
    }
    assert events[..|events|] == events;
  }

  method FoldParks(events: seq<Response>) returns (park: bool)
    ensures park == Parks(events, false)
  {
    park := false;
    for k := 0 to |events|
      invariant park == Parks(events[..k], false)
    {
      assert events[..k + 1] == events[..k] + [events[k]];
      ParksAppend(events[..k], [events[k]], false);
      if IsHit(events[k]) {
        park := true;
      } else if events[k].responseType == RESUMED {
        park := false;
      }
    }
    assert events[..|events|] == events;
  }
}
