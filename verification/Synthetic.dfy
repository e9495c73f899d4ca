/** The map the validator's own tests start from, for any tunnel rows, and what
    it witnesses: acceptance is not empty, and each of the conditions under which
    play stays on track is needed. */
module Synthetic {
  import opened Bytes
  import opened Wrappers
  import opened Maze
  import opened Validator
  import opened Track
  import opened Player
  import opened Engine

  predicate HouseBlock(c: Cell) {
    11 <= c.0 <= 16 && 10 <= c.1 <= 12
  }

  predicate Corner(c: Cell) {
    (c.0 == 1 || c.0 == 26) && (c.1 == 2 || c.1 == 21)
  }

  /** The cells above and below the start, walled in one of the variants. */
  predicate AroundStart(c: Cell) {
    (c.0 == 13 || c.0 == 14) && (c.1 == 18 || c.1 == 20)
  }

  /** Every interior cell is a dot except the house, the start and the corners. */
  function Glyph(c: Cell, tunnels: seq<nat>, walled: bool): (g: char)
    ensures Vocabulary(g)
  {
    if c.1 == 0 || c.1 == H - 1 then '#'
    else if c.0 == 0 || c.0 == W - 1 then (if c.1 in tunnels then 'T' else '#')
    else if Door(c) then '='
    else if Interior(c) then ' '
    else if HouseBlock(c) then '#'
    else if walled && AroundStart(c) then '#'
    else if c.1 == 19 && (c.0 == 13 || c.0 == 14) then ' '
    else if Corner(c) then 'O'
    else '.'
  }

  function Map(tunnels: seq<nat>, walled: bool): (l: Layout)
    requires forall y | y in tunnels :: 1 <= y <= H - 2
    ensures l.Valid() && l.tunnels == tunnels
    ensures forall c: Cell | InMaze(c) :: l.At(c) == Glyph(c, tunnels, walled)
  {
    Layout(seq(H, y requires 0 <= y < H => seq(W, x requires 0 <= x < W => Glyph((x, y), tunnels, walled))), tunnels)
  }

  // ---------- it is accepted ----------

  /** Corridor cells off the border. */
  predicate Free(c: Cell, walled: bool) {
    1 <= c.0 <= W - 2 && 1 <= c.1 <= H - 2 && !HouseBlock(c) && !(walled && AroundStart(c))
  }

  lemma FreeMeans(tunnels: seq<nat>, walled: bool, c: Cell)
    requires (forall y | y in tunnels :: 1 <= y <= H - 2) && InMaze(c)
    ensures var l := Map(tunnels, walled);
            l.Corridor(c) <==> Free(c, walled) || ((c.0 == 0 || c.0 == W - 1) && c.1 in tunnels)
  {
  }

  lemma FreeStep(tunnels: seq<nat>, walled: bool, c: Cell, d: Dir)
    requires (forall y | y in tunnels :: 1 <= y <= H - 2) && Free((c.0 + DX(d), c.1 + DY(d)), walled)
    ensures Map(tunnels, walled).Step(c, d) == Some((c.0 + DX(d), c.1 + DY(d)))
  {
    FreeMeans(tunnels, walled, (c.0 + DX(d), c.1 + DY(d)));
  }

  ghost predicate Reached(tunnels: seq<nat>, walled: bool, c: Cell)
    requires forall y | y in tunnels :: 1 <= y <= H - 2
  {
    Reachable(Map(tunnels, walled), START, c)
  }

  lemma ReachedStep(tunnels: seq<nat>, walled: bool, c: Cell, d: Dir)
    requires forall y | y in tunnels :: 1 <= y <= H - 2
    requires Reached(tunnels, walled, c) && Free((c.0 + DX(d), c.1 + DY(d)), walled)
    ensures Reached(tunnels, walled, (c.0 + DX(d), c.1 + DY(d)))
  {
    hide Reachable, Map, Layout.Step, Layout.OpenNeighbours, Free;
    var l := Map(tunnels, walled);
    FreeStep(tunnels, walled, c, d);
    NeighbourMeaning(l, c);
    ReachableStep(l, START, c, (c.0 + DX(d), c.1 + DY(d)));
  }

  lemma {:induction false} AlongRow(tunnels: seq<nat>, walled: bool, c: Cell, x: int)
    requires forall y | y in tunnels :: 1 <= y <= H - 2
    requires Reached(tunnels, walled, c)
    requires forall k | (c.0 < k <= x || x <= k < c.0) :: Free((k, c.1), walled)
    ensures Reached(tunnels, walled, (x, c.1))
    decreases if x < c.0 then c.0 - x else x - c.0
  {
    hide Reached, Free;
    if c.0 < x {
      assert Free((c.0 + 1, c.1), walled);
      ReachedStep(tunnels, walled, c, RIGHT);
      AlongRow(tunnels, walled, (c.0 + 1, c.1), x);
    } else if x < c.0 {
      assert Free((c.0 - 1, c.1), walled);
      ReachedStep(tunnels, walled, c, LEFT);
      AlongRow(tunnels, walled, (c.0 - 1, c.1), x);
    }
  }

  lemma {:induction false} AlongColumn(tunnels: seq<nat>, walled: bool, c: Cell, y: int)
    requires forall k | k in tunnels :: 1 <= k <= H - 2
    requires Reached(tunnels, walled, c)
    requires forall k | (c.1 < k <= y || y <= k < c.1) :: Free((c.0, k), walled)
    ensures Reached(tunnels, walled, (c.0, y))
    decreases if y < c.1 then c.1 - y else y - c.1
  {
    hide Reached, Free;
    if c.1 < y {
      assert Free((c.0, c.1 + 1), walled);
      ReachedStep(tunnels, walled, c, DOWN);
      AlongColumn(tunnels, walled, (c.0, c.1 + 1), y);
    } else if y < c.1 {
      assert Free((c.0, c.1 - 1), walled);
      ReachedStep(tunnels, walled, c, UP);
      AlongColumn(tunnels, walled, (c.0, c.1 - 1), y);
    }
  }

  /** Along the start row, up or down beside the house, and along the cell's row. */
  lemma FreeReachable(tunnels: seq<nat>, walled: bool, c: Cell)
    requires (forall y | y in tunnels :: 1 <= y <= H - 2) && Free(c, walled)
    ensures Reached(tunnels, walled, c)
  {
    assert Reached(tunnels, walled, START) by {
      ReachableRefl(Map(tunnels, walled), START);
    }
    hide Reached, Free;
    var x := Aisle(c.0);
    RouteClear(c, walled, x);
    AlongRow(tunnels, walled, START, x);
    if c != START && c != (14, 19) {
      AlongColumn(tunnels, walled, (x, 19), c.1);
    }
    AlongRow(tunnels, walled, (x, c.1), c.0);
  }

  /** The column taken to a cell, beside the house and the start. */
  function Aisle(x: int): int {
    if x <= 10 || x >= 17 then x else if x <= 13 then 10 else 17
  }

  lemma RouteClear(c: Cell, walled: bool, x: int)
    requires Free(c, walled) && x == Aisle(c.0)
    ensures forall k | (13 < k <= x || x <= k < 13) :: Free((k, 19), walled)
    ensures forall k | (19 < k <= c.1 || c.1 <= k < 19) :: Free((x, k), walled)
    ensures forall k | (x < k <= c.0 || c.0 <= k < x) :: Free((k, c.1), walled)
  {
  }

  /** A free cell has free cells on two sides. */
  lemma FreeWays(c: Cell, walled: bool) returns (d: Dir, e: Dir)
    requires Free(c, walled)
    ensures d != e && Free((c.0 + DX(d), c.1 + DY(d)), walled) && Free((c.0 + DX(e), c.1 + DY(e)), walled)
  {
    var up, left := Free((c.0, c.1 - 1), walled), Free((c.0 - 1, c.1), walled);
    d := if up then UP else DOWN;
    e := if left then LEFT else RIGHT;
    if !Free((c.0, c.1 + DY(d)), walled) {
      d, e := LEFT, RIGHT;
    }
  }

  lemma TwoWays(tunnels: seq<nat>, walled: bool, c: Cell)
    requires (forall y | y in tunnels :: 1 <= y <= H - 2) && InMaze(c) && Map(tunnels, walled).Corridor(c)
    ensures |Map(tunnels, walled).OpenNeighbours(c)| >= 2
  {
    FreeMeans(tunnels, walled, c);
    hide Free, Map, Layout.Corridor, Layout.Step, Layout.OpenNeighbours, Layout.Valid;
    if Free(c, walled) {
      FreeTwoWays(tunnels, walled, c);
    } else {
      MouthTwoWays(tunnels, walled, c);
    }
  }

  lemma FreeTwoWays(tunnels: seq<nat>, walled: bool, c: Cell)
    requires (forall y | y in tunnels :: 1 <= y <= H - 2) && Free(c, walled)
    ensures |Map(tunnels, walled).OpenNeighbours(c)| >= 2
  {
    hide Free, Map, Layout.Corridor, Layout.Step, Layout.OpenNeighbours, Layout.Valid, DX, DY;
    var d, e := FreeWays(c, walled);
    FreeStep(tunnels, walled, c, d);
    FreeStep(tunnels, walled, c, e);
    TwoSteps(Map(tunnels, walled), c, d, e);
  }

  lemma MouthTwoWays(tunnels: seq<nat>, walled: bool, c: Cell)
    requires (forall y | y in tunnels :: 1 <= y <= H - 2) && (c.0 == 0 || c.0 == W - 1) && c.1 in tunnels
    ensures |Map(tunnels, walled).OpenNeighbours(c)| >= 2
  {
    MouthInside(walled, c);
    hide Free, Map, Layout.Corridor, Layout.Step, Layout.OpenNeighbours, Layout.Valid;
    MouthWraps(Map(tunnels, walled), c);
    FreeStep(tunnels, walled, c, if c.0 == 0 then RIGHT else LEFT);
    TwoSteps(Map(tunnels, walled), c, LEFT, RIGHT);
  }

  lemma MouthInside(walled: bool, c: Cell)
    requires 1 <= c.1 <= H - 2 && (c.0 == 0 || c.0 == W - 1)
    ensures Free((if c.0 == 0 then 1 else W - 2, c.1), walled)
  {
  }

  lemma MouthWraps(l: Layout, c: Cell)
    requires l.Valid() && c.1 in l.tunnels && (c.0 == 0 || c.0 == W - 1)
    ensures l.Step(c, if c.0 == 0 then LEFT else RIGHT).Some?
  {
  }

  lemma TwoSteps(l: Layout, c: Cell, d: Dir, e: Dir)
    requires l.Valid() && d != e && l.Step(c, d).Some? && l.Step(c, e).Some?
    ensures |l.OpenNeighbours(c)| >= 2
  {
    hide Layout.Step, Layout.Valid;
  }

  function Energizers(): seq<Cell> {
    [(1, 2), (26, 2), (1, 21), (26, 21)]
  }


  /** Whether the cell numbered n is the next of the four. */
  predicate NextEnergizer(l: Layout, n: nat)
    requires l.Valid() && n < W * H
  {
    var k := EnergizersBefore(n);
    if l.Code(CellAt(n)) == ENERGIZER then k < 4 && EnergizersBefore(n + 1) == k + 1 && CellAt(n) == Energizers()[k]
    else EnergizersBefore(n + 1) == k
  }

  lemma EnergizerCells(tunnels: seq<nat>, walled: bool, n: nat)
    requires (forall y | y in tunnels :: 1 <= y <= H - 2) && n < W * H
    ensures NextEnergizer(Map(tunnels, walled), n)
  {
    var c := CellAt(n);
    assert c.1 == n / W && c.0 == n % W && n == W * c.1 + c.0;
    assert Map(tunnels, walled).Code(c) == ENERGIZER <==> Corner(c);
    assert Corner(c) <==> n == 57 || n == 82 || n == 589 || n == 614;
  }

  lemma {:induction false} FourEnergizers(l: Layout, n: nat)
    requires l.Valid() && n <= W * H && forall k: nat | k < n :: NextEnergizer(l, k)
    ensures CellsWith(l, ENERGIZER, n) == Energizers()[..EnergizersBefore(n)]
  {
    assert EnergizersBefore(0) == 0;
    hide Layout.Valid, CellAt, EnergizersBefore, Layout.Code;
    if n > 0 {
      FourEnergizers(l, n - 1);
      assert NextEnergizer(l, n - 1);
      var k := EnergizersBefore(n - 1);
      assert k < 4 ==> Energizers()[..k] + [Energizers()[k]] == Energizers()[..k + 1];
    }
  }

  function EnergizersBefore(n: nat): (k: nat)
    ensures k <= 4
  {
    if n <= 57 then 0 else if n <= 82 then 1 else if n <= 589 then 2 else if n <= 614 then 3 else 4
  }

  /** Accepted for every choice of tunnel rows, with its own dot count as target. */
  lemma SyntheticAccepted(tunnels: seq<nat>, walled: bool, tolerance: nat)
    requires forall y | y in tunnels :: 1 <= y <= H - 2
    ensures var l := Map(tunnels, walled); Accepted(l, |CellsWith(l, DOT, W * H)|, tolerance)
  {
    var l := Map(tunnels, walled);
    PassesMirror(tunnels, walled);
    PassesHouse(tunnels, walled);
    PassesWays(tunnels, walled);
    PassesReach(tunnels, walled);
    PassesPellets(tunnels, walled, tolerance);
    hide Symmetric, OutsideClosed, SidesClosed, MouthsOpen, HouseBuilt, NoDeadEnds;
    hide DotsReachable, PelletsRight, CellsWith, Map, Layout.Valid;
  }

  lemma PassesPellets(tunnels: seq<nat>, walled: bool, tolerance: nat)
    requires forall y | y in tunnels :: 1 <= y <= H - 2
    ensures var l := Map(tunnels, walled); PelletsRight(l, |CellsWith(l, DOT, W * H)|, tolerance)
  {
    hide Map, CellsWith, NextEnergizer, Layout.Valid;
    var l := Map(tunnels, walled);
    forall k: nat | k < W * H ensures NextEnergizer(l, k) {
      EnergizerCells(tunnels, walled, k);
    }
    FourEnergizers(l, W * H);
    assert CellsWith(l, ENERGIZER, W * H) == Energizers();
  }

  lemma PassesMirror(tunnels: seq<nat>, walled: bool)
    requires forall y | y in tunnels :: 1 <= y <= H - 2
    ensures Symmetric(Map(tunnels, walled))
  {
    hide Map, Layout.At, Layout.Valid;
  }

  lemma PassesHouse(tunnels: seq<nat>, walled: bool)
    requires forall y | y in tunnels :: 1 <= y <= H - 2
    ensures var l := Map(tunnels, walled); OutsideClosed(l) && SidesClosed(l) && MouthsOpen(l) && HouseBuilt(l)
  {
    hide Map, Layout.At, Layout.Valid;
  }

  lemma PassesWays(tunnels: seq<nat>, walled: bool)
    requires forall y | y in tunnels :: 1 <= y <= H - 2
    ensures NoDeadEnds(Map(tunnels, walled))
  {
    hide Layout.OpenNeighbours, Layout.Corridor, Map;
    forall c | InMaze(c) && Map(tunnels, walled).Corridor(c) ensures |Map(tunnels, walled).OpenNeighbours(c)| >= 2 {
      TwoWays(tunnels, walled, c);
    }
  }

  lemma PassesReach(tunnels: seq<nat>, walled: bool)
    requires forall y | y in tunnels :: 1 <= y <= H - 2
    ensures DotsReachable(Map(tunnels, walled))
  {
    var l := Map(tunnels, walled);
    forall c | InMaze(c) && (l.Code(c) == DOT || l.Code(c) == ENERGIZER) ensures Reachable(l, START, c) {
      assert Free(c, walled);
      FreeReachable(tunnels, walled, c);
    }
  }

  // ---------- the working array ----------

  function Board(l: Layout): (dots: seq<byte>)
    requires l.Valid()
    ensures |dots| == W * H && Agrees(dots, l)
  {
    seq(W * H, i requires 0 <= i < W * H => l.Code(CellAt(i)))
  }

  /** The array for the map's first drawing. */
  lemma BoardWalls(tunnels: seq<nat>, walled: bool, c: Cell)
    requires (forall y | y in tunnels :: 1 <= y <= H - 2) && InMaze(c)
    ensures |Board(Map(tunnels, walled))| == W * H
    ensures Wall(Board(Map(tunnels, walled)), c) <==> Glyph(c, tunnels, walled) == '#'
  {
    assert Map(tunnels, walled).Code(c) == WALL <==> Glyph(c, tunnels, walled) == '#';
    hide Map, Glyph;
  }

  function Muncher(x: byte, y: byte, dir: byte): Actor {
    Actor(x, y, dir, 255, 255, G_DOT, 0, 0, 0, 0, 0, 0)
  }

  ghost predicate Passes(l: Layout) {
    l.Valid() && Accepted(l, |CellsWith(l, DOT, W * H)|, 8)
  }

  // ---------- what goes wrong without the conditions ----------

  /** Accepted, but open above the start: parked there and told to go up, the
      player leaves her track. */
  lemma OpenStartFails() returns (l: Layout, dots: seq<byte>)
    ensures |dots| == W * H && OnTrack(dots, true, Muncher(27, 38, DIR_NONE))
    ensures !OnTrack(dots, true, Steered(dots, Muncher(27, 38, DIR_NONE), UP))
    ensures Agrees(dots, l)
    ensures Passes(l)
  {
    hide Accepted, Map, Board, OnTrack, Steered;
    l := Map([6], false);
    dots := Board(l);
    SyntheticAccepted([6], false, 8);
    BoardWalls([6], false, (13, 19));
    BoardWalls([6], false, (14, 19));
    BoardWalls([6], false, (13, 18));
    UpFromStart(dots);
  }

  lemma UpFromStart(dots: seq<byte>)
    requires |dots| == W * H && !Wall(dots, (13, 19)) && !Wall(dots, (14, 19)) && !Wall(dots, (13, 18))
    ensures OnTrack(dots, true, Muncher(27, 38, DIR_NONE))
    ensures !OnTrack(dots, true, Steered(dots, Muncher(27, 38, DIR_NONE), UP))
  {
  }

  /** Accepted, with two mouths one above the other: up from the lower mouth to
      the upper one, then sideways, and the player is off the map. */
  lemma TouchingMouthsFail() returns (l: Layout, dots: seq<byte>)
    ensures |dots| == W * H && OnTrack(dots, true, Muncher(0, 14, LEFT))
    ensures Steered(dots, Muncher(0, 14, LEFT), UP) == Upwards()
    ensures Stepped(dots, true, Upwards()) == UpperMouth()
    ensures !OnTrack(dots, true, Steered(dots, UpperMouth(), LEFT))
    ensures Agrees(dots, l)
    ensures Passes(l)
  {
    hide Accepted, Map, Board, OnTrack, Steered, Stepped;
    l := Map([6, 7], true);
    dots := Board(l);
    SyntheticAccepted([6, 7], true, 8);
    BoardWalls([6, 7], true, (0, 7));
    BoardWalls([6, 7], true, (0, 6));
    UpThenOut(dots);
  }

  /** Half way up between the mouths, and in the upper one. */
  function Upwards(): (a: Actor)
    ensures a.y == 13 && a.dir == UP
  {
    Muncher(0, 13, UP).(svy := 13, svn := 2)
  }

  function UpperMouth(): (a: Actor)
    ensures a.y == 12 && a.dir == UP
  {
    Muncher(0, 12, UP).(acc := 254, svy := 12, svn := 1)
  }

  lemma UpThenOut(dots: seq<byte>)
    requires |dots| == W * H && !Wall(dots, (0, 7)) && !Wall(dots, (0, 6))
    ensures OnTrack(dots, true, Muncher(0, 14, LEFT))
    ensures Steered(dots, Muncher(0, 14, LEFT), UP) == Upwards()
    ensures Stepped(dots, true, Upwards()) == UpperMouth()
    ensures !OnTrack(dots, true, Steered(dots, UpperMouth(), LEFT))
  {
    hide OnTrack, Steered, Stepped, Wall;
    CornersUp(dots);
    ArrivesAbove(dots);
    LeavesTheMap(dots);
  }

  lemma CornersUp(dots: seq<byte>)
    requires |dots| == W * H && !Wall(dots, (0, 7)) && !Wall(dots, (0, 6))
    ensures OnTrack(dots, true, Muncher(0, 14, LEFT)) && Steered(dots, Muncher(0, 14, LEFT), UP) == Upwards()
  {
  }

  lemma ArrivesAbove(dots: seq<byte>)
    requires |dots| == W * H
    ensures Stepped(dots, true, Upwards()) == UpperMouth()
  {
  }

  lemma LeavesTheMap(dots: seq<byte>)
    requires |dots| == W * H
    ensures !OnTrack(dots, true, Steered(dots, UpperMouth(), LEFT))
  {
  }

  /** The walled variant meets every condition play needs. */
  lemma WalledPlays(tunnels: seq<nat>)
    requires (forall y | y in tunnels :: 1 <= y <= H - 2) && forall y | y in tunnels :: y + 1 !in tunnels
    ensures Roomy(Board(Map(tunnels, true))) && Sealed(Board(Map(tunnels, true)))
    ensures Passes(Map(tunnels, true))
  {
    hide Map, Board, Accepted, Sealed, Roomy, CellsWith;
    var l := Map(tunnels, true);
    SyntheticAccepted(tunnels, true, 8);
    assert l.At((13, 18)) == '#' && l.At((13, 20)) == '#';
    AcceptedIsRoomy(l, |CellsWith(l, DOT, W * H)|, 8, Board(l));
  }

  /** One tick into the void: she waits at the far mouth, undrawn. */
  lemma VanishingTick(dots: seq<byte>, a: Actor, glyph: byte)
    requires Sealed(dots) && Roomy(dots) && Playing(dots, a)
    requires a.x == 0 && a.y == 12 && a.dir == LEFT && a.acc == 255 && a.pause == 0 && a.hid == 0
    ensures var b := Ticked(dots, a, DIR_NONE, 255, glyph); b.hid == 4 && b.svn == 0 && b.Cell() == (27, 6)
  {
  }

  lemma NobodyShown(actors: seq<Actor>, o: int)
    requires forall k | 0 <= k < |actors| :: actors[k].svn == 0
    ensures !Covered(actors, o)
  {
  }

  lemma InMouth(dots: seq<byte>)
    requires |dots| == W * H && !Wall(dots, (0, 6))
    ensures Playing(dots, Muncher(0, 12, LEFT)) && InMaze((27, 6))
  {
  }

  /** With every other actor idle, a player walks out by a mouth of row 6: the
      glyph painted at the far mouth then belongs to nobody, and the screen no
      longer shows the maze state. */
  method WalkOut(maze: seq<byte>, walls: seq<byte>, blank: seq<byte>, glyph: byte) returns (e: Engine)
    requires Sealed(maze) && Roomy(maze) && !Wall(maze, (0, 6)) && |walls| == W * H && |blank| == SCREEN_SIZE
    requires glyph != G_SPACE
    ensures e.actors.Length == NACT && e.actors[0].hid != 0 && e.actors[0].Cell() == (27, 6)
    ensures e.Inv() && !e.Shown(-1) && SameWalls(maze, e.dots[..])
  {
    InMouth(maze);
    var a := Muncher(0, 12, LEFT);
    VanishingTick(maze, a, glyph);
    assert |maze| == W * H;
    hide Sealed, Roomy, Faithful, Playing, Ticked, Landed, Crew;
    hide Engine.Shown, Grazed, SteppedThen, Covered, SameWalls, Actor.Cell;
    e := new Engine(maze, walls, blank);
    assert e.actors[0] == Nobody();
    e.Recast(0, a);
    assert forall k | 1 <= k < NACT :: e.actors[..][k].svn == 0;
    assert e.actors[..][0] == a;
    e.PlayerTick(DIR_NONE, 255, glyph);
    assert e.actors[..][0] == e.actors[0];
    NobodyShown(e.actors[..], Offset((27, 6)));
  }

  lemma WalledSix()
    ensures var maze := Board(SixMap());
            && |maze| == W * H && !Wall(maze, (0, 6)) && Roomy(maze) && Sealed(maze) && Agrees(maze, SixMap())
    ensures Passes(SixMap())
  {
    hide Map, Board, Sealed, Roomy, Passes, Agrees, Wall;
    WalledPlays([6]);
    BoardWalls([6], true, (0, 6));
  }

  /** The walled variant with the tests' own tunnel row. */
  function SixMap(): (l: Layout)
    ensures l.Valid()
  {
    Map([6], true)
  }

  lemma SameWallsAgree(d: seq<byte>, e: seq<byte>, l: Layout)
    requires SameWalls(d, e) && Agrees(d, l)
    ensures Agrees(e, l)
  {
    forall c: Cell | InMaze(c) ensures Wall(e, c) <==> Wall(d, c) {
      assert d[Index(c)] == 3 <==> e[Index(c)] == 3;
    }
  }

  /** And that accepted map is such a maze. */
  method FarMouthPainted(walls: seq<byte>, blank: seq<byte>, glyph: byte) returns (e: Engine)
    requires |walls| == W * H && |blank| == SCREEN_SIZE && glyph != G_SPACE
    ensures e.actors.Length == NACT && e.actors[0].hid != 0 && e.actors[0].Cell() == (27, 6)
    ensures e.Inv() && !e.Shown(-1)
    ensures Agrees(e.dots[..], SixMap())
    ensures Passes(SixMap())
  {
    WalledSix();
    hide SixMap, Board, Sealed, Roomy, Passes, Engine.Inv;
    hide Engine.Shown, Actor.Cell, Layout.Valid, Agrees, SameWalls, Wall;
    e := WalkOut(Board(SixMap()), walls, blank, glyph);
    SameWallsAgree(Board(SixMap()), e.dots[..], SixMap());
  }
}
