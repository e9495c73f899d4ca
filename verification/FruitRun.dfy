/** The fruit following its compiled route, one jiffy at a time. */
module FruitRun {
  import opened Bytes
  import opened Wrappers
  import opened Maze
  import opened Validator
  import opened Track
  import opened FruitPaths
  import opened FruitRoute

  const FSPD: byte := 0x28

  // ---------- zero-length runs ----------

  /** The runs of no cells at the head of a route. */
  function Zeros(runs: seq<Run>): (z: nat)
    ensures z <= |runs| && (z < |runs| ==> runs[z].n > 0) && forall k | 0 <= k < z :: runs[k].n == 0
  {
    if runs == [] || runs[0].n > 0 then 0 else 1 + Zeros(runs[1..])
  }

  /** Nowhere more than five runs of no cells in a row. */
  ghost predicate FewZeros(runs: seq<Run>) {
    forall k | 0 <= k <= |runs| :: Zeros(runs[k..]) <= 5
  }

  lemma {:induction false} AllZeroStays(c: Cell, runs: seq<Run>)
    requires forall r | r in runs :: r.n == 0
    ensures Units(runs) == [] && End(c, Units(runs)) == c
  {
    if runs != [] {
      AllZeroStays(c, runs[1..]);
    }
  }

  /** An accepted path moves: its mouth is no corner of the ring. */
  lemma PathMoves(l: Layout, p: FruitPath)
    requires l.Valid() && PathAccepted(l, p)
    ensures exists k :: 0 <= k < |p.runs| && p.runs[k].n > 0
  {
    if forall k | 0 <= k < |p.runs| :: p.runs[k].n == 0 {
      AllZeroStays(p.start, p.runs);
    }
  }

  lemma {:induction false} BackRunsAt(runs: seq<Run>, k: nat)
    requires k < |runs|
    ensures |BackRuns(runs)| == |runs| && BackRuns(runs)[|runs| - 1 - k] == Run(Opposite(runs[k].d), runs[k].n)
    decreases |runs|
  {
    UnitsBack(runs);
    UnitsBack(runs[1..]);
    if k > 0 {
      BackRunsAt(runs[1..], k - 1);
    }
  }

  lemma {:induction false} AroundMoves(a: nat, b: nat)
    requires a < 4 && b < 4
    ensures forall k | 0 <= k < |Around(a, b)| :: Around(a, b)[k].n > 0
    decreases (b - a) % 4
  {
    if a != b {
      AroundMoves((a + 1) % 4, b);
    }
  }

  lemma RingMoves(a: nat, b: nat)
    requires a < 4 && b < 4
    ensures var ring := Lap(a) + Around(a, b); ring != [] && forall k | 0 <= k < |ring| :: ring[k].n > 0
  {
    AroundMoves(a, b);
    hide Around;
  }

  lemma RouteRegroups(entry: FruitPath, exit: FruitPath)
    requires entry.corner < 4 && exit.corner < 4
    ensures Route(entry, exit) == entry.runs + (Lap(entry.corner) + Around(entry.corner, exit.corner))
            + BackRuns(exit.runs)
  {
    hide Lap, Around, BackRuns;
  }

  lemma RouteFewZeros(l: Layout, entry: FruitPath, exit: FruitPath)
    requires l.Valid() && PathAccepted(l, entry) && PathAccepted(l, exit) && |entry.runs| <= 6 && |exit.runs| <= 6
    ensures FewZeros(Route(entry, exit))
  {
    PathMoves(l, entry);
    PathMoves(l, exit);
    RingMoves(entry.corner, exit.corner);
    var e :| 0 <= e < |entry.runs| && entry.runs[e].n > 0;
    var x :| 0 <= x < |exit.runs| && exit.runs[x].n > 0;
    BackRunsAt(exit.runs, x);
    var ring := Lap(entry.corner) + Around(entry.corner, exit.corner);
    var back := BackRuns(exit.runs);
    RouteRegroups(entry, exit);
    hide PathAccepted, Route, Lap, Around, BackRuns, FewZeros;
    ThreePartZeros(entry.runs, e, ring, back, |back| - 1 - x);
  }

  lemma ThreePartZeros(a: seq<Run>, e: nat, ring: seq<Run>, b: seq<Run>, x: nat)
    requires |a| <= 6 && |b| <= 6 && e < |a| && a[e].n > 0 && x < |b| && b[x].n > 0
    requires ring != [] && forall k | 0 <= k < |ring| :: ring[k].n > 0
    ensures FewZeros(a + ring + b)
  {
    var r := a + ring + b;
    forall k | 0 <= k <= |r| ensures Zeros(r[k..]) <= 5 {
      var z := Zeros(r[k..]);
      assert forall j | k <= j < k + z :: r[j].n == 0 by {
        assert forall j | k <= j < k + z :: r[j] == r[k..][j - k];
      }
      assert r[e].n > 0 && r[|a|].n > 0 && r[|a| + |ring| - 1].n > 0 && r[|a| + |ring| + x].n > 0;
      assert forall j | |a| <= j < |a| + |ring| :: r[j] == ring[j - |a|];
    }
  }

  // ---------- following ----------

  function Straight(d: byte, m: nat): (u: seq<Dir>)
    requires m > 0 ==> d < DIR_NONE
    ensures |u| == m
  {
    seq(m, _ requires d < DIR_NONE => d)
  }

  /** The centre an actor is at, or half a cell short of. */
  function Ahead(a: Actor): Cell
    requires a.Centred() || a.dir < DIR_NONE
  {
    if a.Centred() then a.Cell() else ((a.x + DX(a.dir)) / 2, (a.y + DY(a.dir)) / 2)
  }

  /** The fruit has trodden the first cells of the route, or is half a cell
      short of them, and the rest lies ahead; at an exhausted centre the
      accumulator cannot overflow before a run with cells is loaded. */
  ghost predicate Following(l: Layout, start: Cell, units: seq<Dir>, a: Actor, steps: byte, trod: seq<Dir>,
                            rest: seq<Run>)
    requires l.Valid()
  {
    && a.pause == 0 && a.hid == 0 && a.spd == FSPD
    && a.dir <= DIR_NONE && (steps > 0 ==> a.dir < DIR_NONE)
    && (a.Centred() <==> steps % 2 == 0)
    && (!a.Centred() ==> if a.x % 2 == 1 then a.y % 2 == 0 && DX(a.dir) != 0 else a.x % 2 == 0 && DY(a.dir) != 0)
    && a.x <= 54 && a.y <= 48 && l.Corridor(Ahead(a))
    && Ahead(a) == End(start, trod)
    && units == trod + Straight(a.dir, steps / 2) + Units(rest)
    && FewZeros(rest)
    && (steps == 0 ==> a.acc + FSPD * Zeros(rest) < 0x100)
  }

  lemma StartFollows(l: Layout, start: Cell, runs: seq<Run>, a: Actor)
    requires l.Valid() && l.Corridor(start) && FewZeros(runs) && a.Centred() && a.Cell() == start
    requires a.pause == 0 && a.hid == 0 && a.spd == FSPD && a.acc == 0 && a.dir == DIR_NONE
    ensures Following(l, start, Units(runs), a, 0, [], runs)
  {
    assert runs[0..] == runs && Zeros(runs[0..]) <= 5;
    assert [] + Straight(DIR_NONE, 0) + Units(runs) == Units(runs);
    hide FewZeros, Layout.Valid;
  }

  lemma UnitsOfCons(r: Run, rest: seq<Run>)
    ensures Units([r] + rest) == Straight(r.d, r.n) + Units(rest)
  {
    assert ([r] + rest)[1..] == rest;
    assert Straight(r.d, r.n) == seq(r.n, _ => r.d);
  }

  lemma FewZerosTail(runs: seq<Run>)
    requires runs != [] && FewZeros(runs)
    ensures FewZeros(runs[1..])
  {
    forall k | 0 <= k <= |runs[1..]| ensures Zeros(runs[1..][k..]) <= 5 {
      assert runs[1..][k..] == runs[k + 1..];
      assert Zeros(runs[k + 1..]) <= 5;
    }
  }

  lemma UnitsLoaded(units: seq<Dir>, d: byte, trod: seq<Dir>, rest: seq<Run>)
    requires rest != [] && units == trod + Straight(d, 0) + Units(rest)
    ensures units == trod + Straight(rest[0].d, rest[0].n) + Units(rest[1..])
    ensures Zeros(rest) == if rest[0].n > 0 then 0 else 1 + Zeros(rest[1..])
  {
    hide Straight, Units;
    assert rest == [rest[0]] + rest[1..];
    UnitsOfCons(rest[0], rest[1..]);
    StraightNone(d);
    assert trod + [] == trod;
    TwoParts(trod, Straight(rest[0].d, rest[0].n), Units(rest[1..]));
  }

  lemma TwoParts(a: seq<Dir>, b: seq<Dir>, c: seq<Dir>)
    ensures a + (b + c) == a + b + c
  {
  }

  lemma StraightNone(d: byte)
    ensures Straight(d, 0) == []
  {
  }

  lemma UnitsSize(rest: seq<Run>)
    requires rest != []
    ensures |Units(rest)| == rest[0].n + |Units(rest[1..])|
  {
  }

  /** Loading the next run at an exhausted centre. */
  lemma LoadFollows(l: Layout, start: Cell, units: seq<Dir>, a: Actor, trod: seq<Dir>, rest: seq<Run>)
    requires l.Valid() && Following(l, start, units, a, 0, trod, rest) && rest != [] && 2 * rest[0].n < 0x100
    ensures var b := a.(dir := rest[0].d);
            if rest[0].n > 0 then Following(l, start, units, b, 2 * rest[0].n, trod, rest[1..])
            else a.acc + FSPD < 0x100 && Following(l, start, units, b.(acc := a.acc + FSPD), 0, trod, rest[1..])
  {
    UnitsLoaded(units, a.dir, trod, rest);
    FewZerosTail(rest);
    assert (2 * rest[0].n) / 2 == rest[0].n;
    hide Zeros, FewZeros, Units, End, Layout.Valid, Layout.Corridor, Straight;
  }

  /** The accumulator tick of a fruit that nothing blocks. */
  function Rolled(a: Actor, d: Dir): Actor
    requires a.spd == FSPD
  {
    if a.acc + FSPD < 0x100 then a.(acc := a.acc + FSPD) else a.(acc := (a.acc + FSPD) % 0x100).Moved(d).Drawn()
  }

  lemma CorridorStep(l: Layout, dots: seq<byte>, a: Actor, d: Dir)
    requires l.Valid() && Agrees(dots, l) && a.Centred() && l.Corridor(a.Cell()) && l.Corridor(Next(a.Cell(), d))
    requires a.dir == d && a.pause == 0 && a.hid == 0 && a.spd == FSPD
    ensures 0 <= a.y / 2 + DY(d) < H && Stepped(dots, false, a) == Rolled(a, d)
  {
    var n := Next(a.Cell(), d);
    assert Wall(dots, n) <==> l.Code(n) == WALL;
    assert InMaze(n) && InMaze(a.Cell()) && !Wall(dots, n);
    assert a.x <= 54 && |dots| == W * H;
    hide Agrees, Layout.Valid, Layout.Corridor, Wall, CanMove, DX, DY, Actor.Moved, Actor.Drawn, Next;
    CanMoveInto(dots, a.x, a.y, d);
  }

  lemma CanMoveInto(dots: seq<byte>, x: byte, y: byte, d: Dir)
    requires |dots| == W * H && x <= 54 && InMaze((x / 2 + DX(d), y / 2 + DY(d)))
    requires !Wall(dots, (x / 2 + DX(d), y / 2 + DY(d)))
    ensures 0 <= y / 2 + DY(d) < H && CanMove(dots, false, x, y, d)
    ensures !(x == 0 && d == LEFT) && !(x == 54 && d == RIGHT)
  {
  }

  lemma HalfStep(l: Layout, dots: seq<byte>, a: Actor, d: Dir)
    requires l.Valid() && Agrees(dots, l) && Sealed(dots) && !a.Centred() && a.x <= 54 && a.y <= 48
    requires a.dir == d && a.pause == 0 && a.hid == 0 && a.spd == FSPD && l.Corridor(Ahead(a))
    requires if a.x % 2 == 1 then a.y % 2 == 0 && DX(d) != 0 else a.x % 2 == 0 && DY(d) != 0
    ensures 0 <= a.y / 2 + DY(d) < H && Stepped(dots, false, a) == Rolled(a, d)
  {
    var c := Ahead(a);
    assert Wall(dots, c) <==> l.Code(c) == WALL;
    assert Wall(dots, (c.0, 0)) && Wall(dots, (c.0, H - 1));
  }

  lemma RolledEven(a: Actor, d: Dir)
    requires a.Centred() && a.spd == FSPD && a.dir == d && a.acc + FSPD >= 0x100 && InMaze(a.Cell())
    requires InMaze(Next(a.Cell(), d))
    ensures var b := Rolled(a, d);
            && (b.x != a.x || b.y != a.y) && !b.Centred() && Ahead(b) == Next(a.Cell(), d) && b.x <= 54 && b.y <= 48
            && (if b.x % 2 == 1 then b.y % 2 == 0 && DX(d) != 0 else b.x % 2 == 0 && DY(d) != 0)
            && b.dir == d && b.pause == a.pause && b.hid == a.hid && b.spd == FSPD
  {
    MovedIs(a, d);
    hide Actor.Moved;
  }

  lemma RolledOdd(a: Actor, d: Dir)
    requires !a.Centred() && a.spd == FSPD && a.dir == d && a.acc + FSPD >= 0x100 && a.x <= 54 && a.y <= 48
    requires InMaze(Ahead(a))
    requires if a.x % 2 == 1 then a.y % 2 == 0 && DX(d) != 0 else a.x % 2 == 0 && DY(d) != 0
    ensures var b := Rolled(a, d);
            && (b.x != a.x || b.y != a.y) && b.Centred() && b.Cell() == Ahead(a) && b.x <= 54 && b.y <= 48
            && b.dir == d && b.pause == a.pause && b.hid == a.hid && b.spd == FSPD && b.acc < FSPD
               && Ahead(b) == Ahead(a)
  {
    MovedIs(a, d);
    hide Actor.Moved;
  }

  lemma ThreeParts(a: seq<Dir>, b: seq<Dir>, c: seq<Dir>, d: seq<Dir>)
    ensures a + (b + c) + d == a + (b + (c + d)) == a + b + c + d
  {
  }

  /** What is known of the cell ahead of a centre with cells left to walk. */
  lemma NextOnRoute(l: Layout, start: Cell, units: seq<Dir>, d: Dir, m: nat, trod: seq<Dir>, rest: seq<Run>)
    requires l.Valid() && Walks(l, start, units) && m > 0 && units == trod + Straight(d, m) + Units(rest)
    ensures l.Corridor(Next(End(start, trod), d)) && End(start, trod + [d]) == Next(End(start, trod), d)
    ensures units == trod + [d] + Straight(d, m - 1) + Units(rest)
  {
    var left := Straight(d, m - 1) + Units(rest);
    assert Straight(d, m) == [d] + Straight(d, m - 1);
    hide Units, Straight, Layout.Valid, Layout.Corridor, Next;
    ThreeParts(trod, [d], Straight(d, m - 1), Units(rest));
    WalkConcat(l, start, trod, [d] + left);
    WalkConcat(l, start, trod, [d]);
    assert ([d] + left)[0] == d && [d][1..] == [];
  }

  /** The cells trodden after an overflow: one more when leaving a centre. */
  function Trodden(a: Actor, trod: seq<Dir>): seq<Dir>
    requires a.dir < DIR_NONE
  {
    if a.Centred() then trod + [a.dir] else trod
  }

  lemma WaitFollows(l: Layout, start: Cell, units: seq<Dir>, a: Actor, steps: byte, trod: seq<Dir>, rest: seq<Run>)
    requires l.Valid() && Following(l, start, units, a, steps, trod, rest) && steps > 0 && a.acc + FSPD < 0x100
    ensures Following(l, start, units, a.(acc := a.acc + FSPD), steps, trod, rest)
  {
    hide Layout.Valid, Layout.Corridor, End, Units, Zeros, FewZeros, Straight;
  }

  lemma EvenFollows(l: Layout, start: Cell, units: seq<Dir>, a: Actor, steps: byte, trod: seq<Dir>, rest: seq<Run>)
    requires l.Valid() && Walks(l, start, units) && a.Centred() && a.acc + FSPD >= 0x100
    requires Following(l, start, units, a, steps, trod, rest) && steps > 0
    ensures l.Corridor(Next(a.Cell(), a.dir))
    ensures var b := Rolled(a, a.dir);
            (b.x != a.x || b.y != a.y) && Following(l, start, units, b, steps - 1, trod + [a.dir], rest)
  {
    var d: Dir := a.dir;
    NextOnRoute(l, start, units, d, steps / 2, trod, rest);
    assert InMaze(a.Cell()) && InMaze(Next(a.Cell(), d));
    assert (steps - 1) / 2 == steps / 2 - 1;
    hide Walks, End, Units, Layout.Valid, Layout.Corridor, Straight, Zeros, FewZeros, Actor.Cell, Ahead, Rolled, Next;
    RolledEven(a, d);
  }

  lemma OddFollows(l: Layout, start: Cell, units: seq<Dir>, a: Actor, steps: byte, trod: seq<Dir>, rest: seq<Run>)
    requires l.Valid() && !a.Centred() && a.acc + FSPD >= 0x100
    requires Following(l, start, units, a, steps, trod, rest) && steps > 0
    ensures var b := Rolled(a, a.dir);
            (b.x != a.x || b.y != a.y) && Following(l, start, units, b, steps - 1, trod, rest)
  {
    var d: Dir := a.dir;
    assert rest == rest[0..] && Zeros(rest[0..]) <= 5;
    assert InMaze(Ahead(a));
    assert (steps - 1) / 2 == steps / 2;
    hide Walks, End, Units, Layout.Valid, Layout.Corridor, Straight, Zeros, FewZeros, Actor.Cell, Rolled, Next, Ahead;
    RolledOdd(a, d);
  }

  /** One tick with cells left to walk: nothing on the way blocks it. */
  lemma StepFollows(l: Layout, dots: seq<byte>, start: Cell, units: seq<Dir>, a: Actor, steps: byte, trod: seq<Dir>,
                    rest: seq<Run>)
    requires l.Valid() && Agrees(dots, l) && Sealed(dots) && Walks(l, start, units)
    requires Following(l, start, units, a, steps, trod, rest) && steps > 0
    ensures 0 <= a.y / 2 + DY(a.dir) < H
    ensures var b := Stepped(dots, false, a);
            if a.acc + FSPD < 0x100 then b.x == a.x && b.y == a.y && Following(l, start, units, b, steps, trod, rest)
            else (b.x != a.x || b.y != a.y) && Following(l, start, units, b, steps - 1, Trodden(a, trod), rest)
  {
    var d: Dir := a.dir;
    StepRolls(l, dots, start, units, a, steps, trod, rest);
    assert a.spd == FSPD && |dots| == W * H && (a.acc + FSPD < 0x100 ==> Rolled(a, d) == a.(acc := a.acc + FSPD));
    hide Stepped, Rolled, Walks, Sealed, Agrees, Following, Layout.Valid;
    if a.acc + FSPD < 0x100 {
      WaitFollows(l, start, units, a, steps, trod, rest);
    } else if a.Centred() {
      EvenFollows(l, start, units, a, steps, trod, rest);
    } else {
      OddFollows(l, start, units, a, steps, trod, rest);
    }
  }

  lemma StepRolls(l: Layout, dots: seq<byte>, start: Cell, units: seq<Dir>, a: Actor, steps: byte, trod: seq<Dir>,
                  rest: seq<Run>)
    requires l.Valid() && Agrees(dots, l) && Sealed(dots) && Walks(l, start, units)
    requires Following(l, start, units, a, steps, trod, rest) && steps > 0
    ensures 0 <= a.y / 2 + DY(a.dir) < H && Stepped(dots, false, a) == Rolled(a, a.dir)
  {
    if a.Centred() {
      NextOnRoute(l, start, units, a.dir, steps / 2, trod, rest);
      CorridorStep(l, dots, a, a.dir);
    } else {
      HalfStep(l, dots, a, a.dir);
    }
  }

  /** The compiled route fits the queue's bytes and has few empty runs. */
  lemma RouteFits(l: Layout, target: int, tolerance: int, entry: FruitPath, exit: FruitPath)
    requires Accepted(l, target, tolerance) && PathAccepted(l, entry) && PathAccepted(l, exit) && RingAccepted(l)
    requires |entry.runs| <= 6 && |exit.runs| <= 6
    ensures FewZeros(Route(entry, exit)) && forall r | r in Route(entry, exit) :: 2 * r.n < 0x100
    ensures l.Corridor(entry.start) && Zeros(Route(entry, exit)) <= 5
  {
    RouteFewZeros(l, entry, exit);
    var r := Route(entry, exit);
    assert r[0..] == r && Zeros(r[0..]) <= 5;
    RouteIsConnected(l, target, tolerance, entry, exit);
    RunsFit(l, entry.start, r);
    MouthIsCorridor(l, target, tolerance, entry.start.1);
  }

  lemma CorridorRow(l: Layout, dots: seq<byte>, c: Cell)
    requires l.Valid() && Agrees(dots, l) && Sealed(dots) && l.Corridor(c)
    ensures 1 <= c.1 <= H - 2
  {
    assert Wall(dots, c) <==> l.Code(c) == WALL;
    assert Wall(dots, (c.0, 0)) && Wall(dots, (c.0, H - 1));
  }

  /** A jiffy that earns no half-cell only rolls the accumulator. */
  lemma ZeroRunRolls(l: Layout, dots: seq<byte>, a: Actor)
    requires l.Valid() && Agrees(dots, l) && Sealed(dots) && a.Centred() && l.Corridor(a.Cell())
    requires a.dir < DIR_NONE && a.pause == 0 && a.spd == FSPD && a.acc + FSPD < 0x100
    ensures 0 <= a.y / 2 + DY(a.dir) < H && Stepped(dots, false, a) == a.(acc := a.acc + FSPD)
  {
    CorridorRow(l, dots, a.Cell());
  }

  lemma StepAcc(l: Layout, dots: seq<byte>, start: Cell, units: seq<Dir>, a: Actor, steps: byte, trod: seq<Dir>,
                rest: seq<Run>)
    requires l.Valid() && Agrees(dots, l) && Sealed(dots) && Walks(l, start, units)
    requires Following(l, start, units, a, steps, trod, rest) && steps > 0
    ensures |dots| == W * H && a.dir < DIR_NONE && 0 <= a.y / 2 + DY(a.dir) < H
    ensures Stepped(dots, false, a).acc == (a.acc + FSPD) % 0x100
  {
    StepRolls(l, dots, start, units, a, steps, trod, rest);
    assert a.spd == FSPD && a.dir < DIR_NONE;
    hide Following, Layout.Valid, Sealed, Agrees, Stepped, Walks;
  }

  /** One place, or half a cell ahead when the accumulator overflows: forty parts
      of 256 a jiffy. */
  predicate HalfCell(a: Actor, b: Actor) {
    if a.acc + 40 < 256 then b.x == a.x && b.y == a.y
    else b.dir < DIR_NONE && b.x == a.x + DX(b.dir) && b.y == a.y + DY(b.dir)
  }

  /** The fruit's picture pulses between plain and reversed, at each centre it
      comes to. */
  predicate Pulses(a: Actor, b: Actor) {
    b.glyph == if (b.x, b.y) != (a.x, a.y) && b.x % 2 == 0 && b.y % 2 == 0 then (a.glyph + 128) % 256 else a.glyph
  }

  lemma RollsHalfCell(a: Actor)
    requires a.spd == FSPD && a.dir < DIR_NONE && a.x <= 54 && a.y <= 48
    requires Rolled(a, a.dir).x <= 54 && Rolled(a, a.dir).y <= 48
    ensures HalfCell(a, Rolled(a, a.dir))
  {
  }

  lemma FollowingInside(l: Layout, start: Cell, units: seq<Dir>, a: Actor, steps: byte, trod: seq<Dir>, rest: seq<Run>)
    requires l.Valid() && Following(l, start, units, a, steps, trod, rest)
    ensures a.x <= 54 && a.y <= 48 && a.spd == FSPD && (steps > 0 ==> a.dir < DIR_NONE)
  {
    hide Layout.Valid, Layout.Corridor, End, Units, Zeros, FewZeros, Straight;
  }

  /** The same, as the fruit's own counters see it. */
  lemma WalkFollows(l: Layout, dots: seq<byte>, start: Cell, units: seq<Dir>, a: Actor, steps: byte, trod: seq<Dir>,
                    rest: seq<Run>)
    returns (left: byte, next: seq<Dir>)
    requires l.Valid() && Agrees(dots, l) && Sealed(dots) && Walks(l, start, units)
    requires Following(l, start, units, a, steps, trod, rest) && steps > 0
    ensures |dots| == W * H && a.dir < DIR_NONE && 0 <= a.y / 2 + DY(a.dir) < H
    ensures var b := Stepped(dots, false, a);
            && Following(l, start, units, b, left, next, rest)
            && (if b.x != a.x || b.y != a.y then left == steps - 1 else left == steps && b.acc > a.acc)
            && HalfCell(a, b)
  {
    StepRolls(l, dots, start, units, a, steps, trod, rest);
    FollowingInside(l, start, units, a, steps, trod, rest);
    StepAcc(l, dots, start, units, a, steps, trod, rest);
    hide Following, Layout.Valid, Units, Sealed, Agrees, Stepped, Rolled, HalfCell, Walks, End, DY, Trodden;
    StepFollows(l, dots, start, units, a, steps, trod, rest);
    if a.acc + FSPD < 0x100 {
      left, next := steps, trod;
    } else {
      left, next := steps - 1, Trodden(a, trod);
    }
    FollowingInside(l, start, units, Stepped(dots, false, a), left, next, rest);
    RollsHalfCell(a);
  }

  lemma LookFollows(l: Layout, start: Cell, units: seq<Dir>, a: Actor, steps: byte, trod: seq<Dir>, rest: seq<Run>,
                    glyph: byte)
    requires l.Valid() && Following(l, start, units, a, steps, trod, rest)
    ensures Following(l, start, units, a.(glyph := glyph), steps, trod, rest)
  {
    hide Layout.Valid, Layout.Corridor, End, Units, Zeros, FewZeros, Straight;
  }

  /** Nothing ahead: the whole route is trodden. */
  lemma DoneFollows(l: Layout, start: Cell, units: seq<Dir>, a: Actor, trod: seq<Dir>)
    requires l.Valid() && Following(l, start, units, a, 0, trod, [])
    ensures a.Centred() && trod == units && a.Cell() == End(start, units)
  {
    assert trod + Straight(a.dir, 0) + [] == trod;
  }

  lemma SpentIsCentred(l: Layout, start: Cell, units: seq<Dir>, a: Actor, steps: byte, trod: seq<Dir>, rest: seq<Run>)
    requires l.Valid() && Following(l, start, units, a, steps, trod, rest)
    ensures steps == 0 ==> a.Centred()
  {
  }

  lemma LeadsEnds(l: Layout, start: Cell, runs: seq<Run>, exit: Cell)
    requires l.Valid() && Leads(l, start, runs, exit)
    ensures Walks(l, start, Units(runs)) && End(start, Units(runs)) == exit
  {
  }

  lemma GlyphApart(a: Actor, b: Actor, glyph: byte)
    requires HalfCell(a, b)
    ensures HalfCell(a, b.(glyph := glyph))
  {
  }

  class Fruit {
    const route: seq<Run>
    var i: nat
    var steps: byte
    var active: bool
    var a: Actor
    ghost const l: Layout
    ghost const start: Cell
    ghost const exit: Cell
    ghost var trod: seq<Dir>

    ghost predicate OnRoute()
      reads this
    {
      && l.Valid() && i <= |route|
      && Leads(l, start, route, exit)
      && (forall r | r in route :: 2 * r.n < 0x100)
      && (active ==> Following(l, start, Units(route), a, steps, trod, route[i..]))
    }

    /** The half-cells still to go. */
    ghost function Distance(): nat
      reads this
      requires i <= |route|
    {
      steps + 2 * |Units(route[i..])|
    }

    /** Parked on the first cell of a compiled route. */
    constructor (q: RouteQueue, ghost maze: Layout, ghost entry: Cell, ghost out: Cell, x: byte, y: byte, glyph: byte)
      requires maze.Valid() && q.Valid() && entry == (x, y) && maze.Corridor(entry)
      requires Leads(maze, entry, q.Runs(), out) && FewZeros(q.Runs()) && forall r | r in q.Runs() :: 2 * r.n < 0x100
      ensures route == q.Runs() && l == maze && start == entry && exit == out
      ensures OnRoute() && active && i == 0 && steps == 0 && trod == [] && a.Cell() == entry && a.Centred()
      ensures x < W && y < H && a == Actor(2 * x, 2 * y, DIR_NONE, 40, 0, glyph, 1, 0, 0, 2 * x, 2 * y, 1)
    {
      route := q.Runs();
      i, steps, active := 0, 0, true;
      a := Actor(2 * x, 2 * y, DIR_NONE, FSPD, 0, glyph, 1, 0, 0, 0, 0, 0).Drawn();
      l, start, exit, trod := maze, entry, out, [];
      new;
      StartFollows(maze, entry, q.Runs(), a);
      assert route[0..] == route;
    }

    /** The next run, its cells doubled into half-steps. */
    method Load()
      requires OnRoute() && active && a.Centred() && steps == 0 && i < |route|
      modifies `a, `steps, `i
      ensures i == old(i) + 1 <= |route|
      ensures a == old(a).(dir := a.dir) && a.dir < DIR_NONE && Distance() == old(Distance())
      ensures if steps > 0 then OnRoute()
              else
                && a.acc + FSPD < 0x100
                && Following(l, start, Units(route), a.(acc := a.acc + FSPD), 0, trod, route[i..])
    {
      hide Following, Leads, Layout.Valid, Units, FewZeros, Zeros;
      ghost var units, rest := Units(route), route[i..];
      assert rest[0] == route[i] && rest[1..] == route[i + 1..] && route[i] in route;
      LoadFollows(l, start, units, a, trod, rest);
      UnitsSize(rest);
      a := a.(dir := route[i].d);
      steps := 2 * route[i].n % 0x100;
      i := i + 1;
    }

    /** step_actor and its bookkeeping. */
    method Step(dots: seq<byte>)
      requires |dots| == W * H && a.dir < DIR_NONE && 0 <= a.y / 2 + DY(a.dir) < H
      modifies `a, `steps
      ensures var b := Stepped(dots, false, old(a));
              var moved := b.x != old(a).x || b.y != old(a).y;
              && a == b.(glyph := a.glyph) && Pulses(old(a), a)
              && steps == if moved then (old(steps) - 1) % 0x100 else old(steps)
    {
      var px, py := a.x, a.y;
      a := Stepped(dots, false, a);
      if a.x != px || a.y != py {
        steps := (steps - 1) % 0x100;
        if a.Centred() {
          a := a.(glyph := (a.glyph + 0x80) % 0x100);
        }
      }
    }

    /** A jiffy with cells left to walk. */
    method Walk(dots: seq<byte>)
      requires OnRoute() && active && steps > 0 && Agrees(dots, l) && Sealed(dots)
      modifies `a, `steps, `trod
      ensures OnRoute() && (Distance() < old(Distance()) || (Distance() == old(Distance()) && a.acc > old(a).acc))
      ensures HalfCell(old(a), a) && Pulses(old(a), a)
    {
      hide Following, HalfCell, Layout.Valid, Units, Sealed, Agrees, Stepped, Walks, End, DY;
      ghost var units, rest, was := Units(route), route[i..], a;
      ghost var left, next := WalkFollows(l, dots, start, units, a, steps, trod, rest);
      Step(dots);
      trod := next;
      LookFollows(l, start, units, Stepped(dots, false, was), left, next, rest, a.glyph);
      GlyphApart(was, Stepped(dots, false, was), a.glyph);
    }

    /** A jiffy that loaded a run of no cells: nothing moves. */
    method Pass(dots: seq<byte>)
      requires l.Valid() && i <= |route| && Leads(l, start, route, exit) && active && steps == 0
      requires (forall r | r in route :: 2 * r.n < 0x100) && Agrees(dots, l) && Sealed(dots)
      requires a.dir < DIR_NONE && a.acc + FSPD < 0x100
      requires Following(l, start, Units(route), a.(acc := a.acc + FSPD), 0, trod, route[i..])
      modifies `a, `steps, `trod
      ensures OnRoute() && Distance() == old(Distance()) && a.acc > old(a).acc && trod == old(trod)
      ensures HalfCell(old(a), a) && Pulses(old(a), a)
    {
      ZeroRunRolls(l, dots, a);
      ghost var b := Stepped(dots, false, a);
      hide Following, Leads, Layout.Valid, Units, Sealed, Agrees, Stepped;
      Step(dots);
      LookFollows(l, start, Units(route), b, steps, trod, route[i..], a.glyph);
    }

    /** One jiffy: load a run at an exhausted centre, or leave when none is
        left; then step. */
    method Tick(dots: seq<byte>, eaten: bool)
      requires OnRoute() && active && Agrees(dots, l) && Sealed(dots)
      modifies this
      ensures OnRoute()
      ensures !active && !eaten ==>
                trod == Units(route) && old(a).Centred() && old(a).Cell() == exit && a == old(a).Erased()
      ensures active ==> !eaten && Nearer(old(Distance()), old(i), old(a).acc)
      ensures if old(a).Centred() && old(steps) == 0 && old(i) == |route| then a == old(a).(svn := 0)
              else HalfCell(old(a), a) && Pulses(old(a), a)
    {
      hide Following, Leads, Layout.Valid, Units, Agrees, Sealed, End;
      SpentIsCentred(l, start, Units(route), a, steps, trod, route[i..]);
      if a.Centred() && steps == 0 {
        if i >= |route| {
          assert route[i..] == [];
          LeadsEnds(l, start, route, exit);
          DoneFollows(l, start, Units(route), a, trod);
          a, active := a.Erased(), false;
          return;
        }
        Load();
      }
      if steps > 0 {
        Walk(dots);
      } else {
        Pass(dots);
      }
      if eaten {
        a, active := a.Erased(), false;
      }
    }

    /** Closer to the exit, or as far with a later run or a fuller accumulator. */
    ghost predicate Nearer(distance: nat, was: nat, acc: byte)
      reads this
      requires i <= |route|
    {
      Distance() < distance || (Distance() == distance && (i > was || (i == was && a.acc > acc)))
    }

    /** Left alone, the fruit always gets out: the whole route is trodden and
        it is taken off the screen at its exit mouth. */
    method FollowRoute(dots: seq<byte>)
      requires OnRoute() && active && Agrees(dots, l) && Sealed(dots)
      modifies this
      ensures !active && trod == Units(route) && a.Centred() && a.Cell() == exit && a.svn == 0
    {
      hide Following, Leads, Layout.Valid, Agrees, Sealed, Units;
      while active
        invariant OnRoute()
        invariant !active ==> trod == Units(route) && a.Centred() && a.Cell() == exit && a.svn == 0
        decreases active, Distance(), |route| - i, 0x100 - a.acc
      {
        Tick(dots, false);
      }
    }
  }

  /** Spawning on an accepted maze: two random bytes choose the mouths, and the
      fruit starts at the first with a route to the second. */
  method Spawn(ghost l: Layout, ghost target: int, ghost tolerance: int, ghost paths: seq<FruitPath>,
               records: seq<seq<byte>>,
               r1: byte, r2: byte, glyph: byte) returns (f: Fruit)
    requires Accepted(l, target, tolerance) && PathsAccepted(l, paths) && |records| == |paths| >= 2
    requires forall k | 0 <= k < |paths| :: Encoded(paths[k]) && records[k] == Record(paths[k])
    ensures fresh(f) && f.OnRoute() && f.active && f.i == 0 && f.l == l
    ensures var i, j := Pick(r1, |paths|), Pick(r2, |paths|);
            && i < |paths| && j < |paths| && paths[i].corner < 4 && paths[j].corner < 4
            && f.route == Route(paths[i], paths[j]) && f.start == paths[i].start && f.exit == paths[j].start
            && f.a.Centred() && f.a.Cell() == paths[i].start
            && InMaze(paths[i].start)
            && (f.a.x as int, f.a.y as int) == (2 * paths[i].start.0, 2 * paths[i].start.1)
            && f.a == Actor(f.a.x, f.a.y, DIR_NONE, 40, 0, glyph, 1, 0, 0, f.a.x, f.a.y, 1)
  {
    hide Accepted, PathsAccepted, Pick, Route, Record, PathOf;
    hide WellFormed, Encoded, FewZeros, Leads, Layout.Valid, Layout.Corridor;
    RecordsWellFormed(paths, records);
    SpawnFacts(l, target, tolerance, paths, r1, r2);
    ghost var p, q := paths[Pick(r1, |paths|)], paths[Pick(r2, |paths|)];
    var queue := new RouteQueue();
    var i, j := queue.Compile(records, r1, r2);
    f := new Fruit(queue, l, p.start, q.start, records[i][0], records[i][1], glyph);
  }

  lemma SpawnFacts(l: Layout, target: int, tolerance: int, paths: seq<FruitPath>, r1: byte, r2: byte)
    requires Accepted(l, target, tolerance) && PathsAccepted(l, paths) && |paths| >= 2
    requires forall k | 0 <= k < |paths| :: Encoded(paths[k])
    ensures var i, j := Pick(r1, |paths|), Pick(r2, |paths|);
            && i < |paths| && j < |paths| && paths[i].corner < 4 && paths[j].corner < 4
            && l.Valid() && l.Corridor(paths[i].start)
            && var route := Route(paths[i], paths[j]);
            && Leads(l, paths[i].start, route, paths[j].start)
            && FewZeros(route) && forall r | r in route :: 2 * r.n < 0x100
  {
    PathsShort(paths);
    CompiledRoute(l, target, tolerance, paths, r1, r2);
    var p, q := paths[Pick(r1, |paths|)], paths[Pick(r2, |paths|)];
    assert p in paths && q in paths && Encoded(p) && Encoded(q);
    assert PathAccepted(l, p) && PathAccepted(l, q) && RingAccepted(l);
    hide Accepted, PathsAccepted, Pick, Route, Record, PathOf, WellFormed, FewZeros, Leads, RingAccepted, PathAccepted;
    RouteFits(l, target, tolerance, p, q);
  }

  lemma RecordsWellFormed(paths: seq<FruitPath>, records: seq<seq<byte>>)
    requires |records| == |paths| && forall k | 0 <= k < |paths| :: Encoded(paths[k]) && records[k] == Record(paths[k])
    ensures forall rec | rec in records :: WellFormed(rec)
    ensures forall k | 0 <= k < |paths| :: PathOf(records[k]) == paths[k]
    ensures forall k | 0 <= k < |paths| :: |records[k]| == 16 && paths[k].start == (records[k][0], records[k][1])
  {
  }

  lemma PathsShort(paths: seq<FruitPath>)
    requires forall k | 0 <= k < |paths| :: Encoded(paths[k])
    ensures forall p | p in paths :: |p.runs| <= 6
  {
  }
}
