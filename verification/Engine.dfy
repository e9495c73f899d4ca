/** The actor engine: arrays of actors, the maze state and the screen, changed
    in place one step at a time. */
module Engine {
  import opened Bytes
  import opened Wrappers
  import opened Maze
  import opened Validator
  import opened Track
  import opened Player

  const NACT := 8
  const COLS := 40
  const SCREEN_SIZE := 1000

  const G_SPACE: byte := 32
  const G_DOT: byte := 46
  const G_HLINE: byte := 64
  const G_BALL: byte := 81
  const G_HALF_L: byte := 97
  const G_HALF_B: byte := 98
  const G_HALF_R: byte := 225
  const G_HALF_T: byte := 226

  function Offset(c: Cell): int {
    COLS * c.1 + c.0
  }

  /** The maze cell shown at a screen offset. */
  function CellOf(o: nat): Cell {
    (o % COLS, o / COLS)
  }

  // ---------- the picture the maze state prescribes ----------

  /** The true glyph of a cell that is not wall. */
  function CellGlyph(dots: seq<byte>, c: Cell): byte
    requires |dots| == W * H && InMaze(c)
  {
    var code := dots[Index(c)];
    if code == 1 then G_DOT
    else if code == 2 then G_BALL
    else if c.1 == 10 && (c.0 == 13 || c.0 == 14) then G_HLINE
    else G_SPACE
  }

  /** The screen without actors: the walls and everything beside the maze as
      first drawn, every other cell by the maze state. */
  function Rendered(picture: seq<byte>, dots: seq<byte>, o: nat): byte
    requires |picture| == SCREEN_SIZE && |dots| == W * H && o < SCREEN_SIZE
  {
    var c := CellOf(o);
    if InMaze(c) && !Wall(dots, c) then CellGlyph(dots, c) else picture[o]
  }

  /** What a cell that is not wall must show: a dot (46), a ball (81), at the
      door the lintel (64), else a space (32). */
  predicate TrueGlyph(glyph: byte, code: byte, x: int, y: int) {
    glyph == if code == 1 then 46 else if code == 2 then 81 else if (x == 13 || x == 14) && y == 10 then 64 else 32
  }

  lemma GlyphIsTrue(dots: seq<byte>, c: Cell)
    requires |dots| == W * H && InMaze(c)
    ensures TrueGlyph(CellGlyph(dots, c), dots[28 * c.1 + c.0], c.0, c.1)
  {
  }

  /** The screen after the first drawing: the maze's own cells in its columns and
      rows, walls in whatever style, everything else as before. */
  ghost predicate FirstDrawn(picture: seq<byte>, maze: seq<byte>, walls: seq<byte>, blank: seq<byte>) {
    && |picture| == |blank| == 1000 && |maze| == |walls| == 700
    && (forall x, y | 0 <= x < 28 && 0 <= y < 25 :: ShowsFirst(picture, maze, walls, x, y))
    && (forall o | 0 <= o < 1000 && !(o % 40 < 28 && o / 40 < 25) :: picture[o] == blank[o])
  }

  predicate ShowsFirst(picture: seq<byte>, maze: seq<byte>, walls: seq<byte>, x: int, y: int)
    requires |picture| == 1000 && |maze| == |walls| == 700 && 0 <= x < 28 && 0 <= y < 25
  {
    if maze[28 * y + x] == 3 then picture[40 * y + x] == walls[28 * y + x]
    else TrueGlyph(picture[40 * y + x], maze[28 * y + x], x, y)
  }

  /** Redrawing from the maze state gives back the first drawing, wherever nothing
      was eaten. */
  lemma RenderedIsFirst(picture: seq<byte>, maze: seq<byte>, walls: seq<byte>, blank: seq<byte>, dots: seq<byte>,
                        o: nat)
    requires FirstDrawn(picture, maze, walls, blank) && |dots| == W * H && o < SCREEN_SIZE
    requires InMaze(CellOf(o)) ==> dots[Index(CellOf(o))] == maze[Index(CellOf(o))]
    ensures Rendered(picture, dots, o) == picture[o]
  {
    var c := CellOf(o);
    if InMaze(c) && !Wall(dots, c) {
      assert Index(c) == 28 * c.1 + c.0 && o == 40 * c.1 + c.0;
      assert ShowsFirst(picture, maze, walls, c.0, c.1);
      GlyphIsTrue(dots, c);
    }
  }

  // ---------- footprints ----------

  function SavedFirst(a: Actor): Cell {
    (a.svx / 2, a.svy / 2)
  }

  function SavedSecond(a: Actor): Cell {
    if a.svy % 2 == 1 then (a.svx / 2, a.svy / 2 + 1) else (a.svx / 2 + 1, a.svy / 2)
  }

  /** The recorded footprint lies on cells that are not wall. */
  predicate GoodFootprint(dots: seq<byte>, a: Actor)
    requires |dots| == W * H
  {
    a.svn != 0 ==>
      && Standable(dots, false, SavedFirst(a))
      && (a.svn == 2 ==> Standable(dots, false, SavedSecond(a)))
  }

  predicate Covers(a: Actor, o: int) {
    a.svn != 0 && (o == Offset(SavedFirst(a)) || (a.svn == 2 && o == Offset(SavedSecond(a))))
  }

  predicate Covered(actors: seq<Actor>, o: int) {
    exists k | 0 <= k < |actors| :: Covers(actors[k], o)
  }

  /** Outside all recorded footprints the screen shows the maze state; one
      cell may be excepted. */
  ghost predicate Faithful(actors: seq<Actor>, dots: seq<byte>, screen: seq<byte>, picture: seq<byte>, except: int) {
    && |dots| == W * H && |screen| == |picture| == SCREEN_SIZE
    && (forall k | 0 <= k < |actors| :: GoodFootprint(dots, actors[k]))
    && (forall o | 0 <= o < SCREEN_SIZE && !Covered(actors, o) && o != except ::
          screen[o] == Rendered(picture, dots, o))
  }

  lemma RenderedIsTrue(picture: seq<byte>, dots: seq<byte>, x: nat, y: nat)
    requires |picture| == SCREEN_SIZE && |dots| == W * H && x < 28 && y < 25 && dots[28 * y + x] != 3
    ensures TrueGlyph(Rendered(picture, dots, 40 * y + x), dots[28 * y + x], x, y)
  {
    OffsetOfCell((x, y));
    GlyphIsTrue(dots, (x, y));
  }

  lemma OffsetOfCell(c: Cell)
    requires InMaze(c)
    ensures 0 <= Offset(c) < SCREEN_SIZE && CellOf(Offset(c)) == c
  {
  }

  /** Wall cells and everything beside the maze keep their first glyph. */
  lemma WallsUntouched(actors: seq<Actor>, dots: seq<byte>, screen: seq<byte>, picture: seq<byte>, except: int, o: nat)
    requires Faithful(actors, dots, screen, picture, except) && o < SCREEN_SIZE
    requires !InMaze(CellOf(o)) || Wall(dots, CellOf(o))
    requires except == -1 || exists c :: Standable(dots, false, c) && except == Offset(c)
    ensures screen[o] == picture[o]
  {
    if Covered(actors, o) {
      var k :| 0 <= k < |actors| && Covers(actors[k], o);
      assert GoodFootprint(dots, actors[k]);
      OffsetOfCell(SavedFirst(actors[k]));
      if actors[k].svn == 2 {
        OffsetOfCell(SavedSecond(actors[k]));
      }
      assert false;
    }
  }

  /** Parked with nothing drawn: what init_actors leaves. */
  predicate Idle(a: Actor) {
    a.dir == DIR_NONE && a.svn == 0
  }

  function Nobody(): (a: Actor)
    ensures Idle(a)
  {
    Actor(0, 0, DIR_NONE, 0, 0, 0, 0, 0, 0, 0, 0, 0)
  }

  function FirstGlyphAt(code: byte, wall: byte, x: int, y: int): byte {
    if code == 3 then wall
    else if code == 1 then G_DOT
    else if code == 2 then G_BALL
    else if y == 10 && (x == 13 || x == 14) then G_HLINE
    else G_SPACE
  }

  ghost function FirstPicture(maze: seq<byte>, walls: seq<byte>, blank: seq<byte>): (p: seq<byte>)
    requires |maze| == |walls| == W * H && |blank| == SCREEN_SIZE
    ensures |p| == SCREEN_SIZE
  {
    seq(SCREEN_SIZE, o requires 0 <= o < SCREEN_SIZE =>
      var c := CellOf(o); if InMaze(c) then FirstGlyphAt(maze[Index(c)], walls[Index(c)], c.0, c.1) else blank[o])
  }

  lemma FirstAt(maze: seq<byte>, walls: seq<byte>, blank: seq<byte>, x: nat, y: nat)
    requires |maze| == |walls| == W * H && |blank| == SCREEN_SIZE && x < W && y < H
    ensures FirstPicture(maze, walls, blank)[COLS * y + x] == FirstGlyphAt(maze[W * y + x], walls[W * y + x], x, y)
  {
    OffsetOfCell((x, y));
  }

  lemma BesideMaze(maze: seq<byte>, walls: seq<byte>, blank: seq<byte>, y: nat)
    requires |maze| == |walls| == W * H && |blank| == SCREEN_SIZE && y < H
    ensures forall o | COLS * y + W <= o < COLS * y + COLS :: FirstPicture(maze, walls, blank)[o] == blank[o]
  {
  }

  lemma FirstIsDrawn(maze: seq<byte>, walls: seq<byte>, blank: seq<byte>)
    requires |maze| == |walls| == W * H && |blank| == SCREEN_SIZE
    ensures FirstDrawn(FirstPicture(maze, walls, blank), maze, walls, blank)
  {
    var picture := FirstPicture(maze, walls, blank);
    forall x, y | 0 <= x < 28 && 0 <= y < 25 ensures ShowsFirst(picture, maze, walls, x, y) {
      FirstAt(maze, walls, blank, x, y);
    }
  }

  lemma FirstIsFaithful(actors: seq<Actor>, maze: seq<byte>, walls: seq<byte>, blank: seq<byte>)
    requires |maze| == |walls| == W * H && |blank| == SCREEN_SIZE && forall k | 0 <= k < |actors| :: actors[k].svn == 0
    ensures var p := FirstPicture(maze, walls, blank); Faithful(actors, maze, p, p, -1)
  {
    var p := FirstPicture(maze, walls, blank);
    FirstIsDrawn(maze, walls, blank);
    forall o: nat | o < SCREEN_SIZE ensures p[o] == Rendered(p, maze, o) {
      RenderedIsFirst(p, maze, walls, blank, maze, o);
    }
    hide FirstPicture, FirstDrawn, Rendered, Covered;
  }

  /** A vacated footprint: its cells show what they must, and no other cell
      changes. */
  ghost predicate Vacated(a: Actor, dots: seq<byte>, was: seq<byte>, now: seq<byte>) {
    && |was| == |now| == 1000 && |dots| == 700
    && var x, y := a.svx / 2, a.svy / 2;
    && var x2, y2 := if a.svy % 2 == 1 then x else x + 1, if a.svy % 2 == 1 then y + 1 else y;
    && (a.svn != 0 ==> ShowsTrue(now, dots, x, y)) && (a.svn == 2 ==> ShowsTrue(now, dots, x2, y2))
    && forall o | 0 <= o < 1000 && !(a.svn != 0 && o == 40 * y + x) && !(a.svn == 2 && o == 40 * y2 + x2) ::
         now[o] == was[o]
  }

  predicate ShowsTrue(screen: seq<byte>, dots: seq<byte>, x: int, y: int)
    requires |screen| == 1000 && |dots| == 700
  {
    0 <= x < 28 && 0 <= y < 25 && TrueGlyph(screen[40 * y + x], dots[28 * y + x], x, y)
  }

  /** Every cell of the maze that is no wall shows what it must; one place may be
      excepted. */
  ghost predicate AllTrue(screen: seq<byte>, dots: seq<byte>, except: int) {
    && |screen| == 1000 && |dots| == 700
    && forall x, y | 0 <= x < 28 && 0 <= y < 25 ::
         dots[28 * y + x] == 3 || 40 * y + x == except || ShowsTrue(screen, dots, x, y)
  }

  lemma RenderedAllTrue(picture: seq<byte>, dots: seq<byte>, screen: seq<byte>, except: int)
    requires |picture| == |screen| == SCREEN_SIZE && |dots| == W * H
    requires forall o: nat | o < SCREEN_SIZE && o != except :: screen[o] == Rendered(picture, dots, o)
    ensures AllTrue(screen, dots, except)
  {
    hide Rendered, TrueGlyph;
    forall x, y | 0 <= x < 28 && 0 <= y < 25
      ensures dots[28 * y + x] == 3 || 40 * y + x == except || ShowsTrue(screen, dots, x, y)
    {
      if dots[28 * y + x] != 3 {
        RenderedIsTrue(picture, dots, x, y);
      }
    }
  }

  lemma ErasedVacates(a: Actor, dots: seq<byte>, screen: seq<byte>)
    requires |dots| == W * H && |screen| == SCREEN_SIZE && GoodFootprint(dots, a)
    ensures Vacated(a, dots, screen, ErasedScreen(a, dots, screen))
  {
    if a.svn != 0 {
      GlyphIsTrue(dots, SavedFirst(a));
      if a.svn == 2 {
        GlyphIsTrue(dots, SavedSecond(a));
      }
    }
  }

  /** A drawn actor: its glyph at a centre; at a straddle two half blocks that
      fuse across the cells' edge, the other way round for reverse video; and no
      other cell changes. */
  ghost predicate Pictured(a: Actor, was: seq<byte>, now: seq<byte>) {
    && |was| == |now| == 1000 && a.x / 2 < 28 && a.y / 2 < 25
    && var o := 40 * (a.y / 2) + a.x / 2;
    && if a.y % 2 == 1 then
         && o + 40 < 1000 && (now[o], now[o + 40]) == (if a.rev == 0 then (98, 226) else (226, 98))
         && forall p | 0 <= p < 1000 && p != o && p != o + 40 :: now[p] == was[p]
       else if a.x % 2 == 1 then
         && (now[o], now[o + 1]) == (if a.rev == 0 then (225, 97) else (97, 225))
         && forall p | 0 <= p < 1000 && p != o && p != o + 1 :: now[p] == was[p]
       else now[o] == a.glyph && forall p | 0 <= p < 1000 && p != o :: now[p] == was[p]
  }

  lemma DrawnPictures(a: Actor, screen: seq<byte>)
    requires |screen| == SCREEN_SIZE && InMaze(a.Cell()) && InMaze(a.Partner()) && (a.x % 2 == 0 || a.y % 2 == 0)
    ensures Pictured(a, screen, DrawnScreen(a, screen))
  {
  }

  // ---------- erasing and drawing, on values ----------

  /** The screen after the recorded footprint was redrawn from the maze state. */
  function ErasedScreen(a: Actor, dots: seq<byte>, screen: seq<byte>): seq<byte>
    requires |dots| == W * H && |screen| == SCREEN_SIZE && GoodFootprint(dots, a)
  {
    if a.svn == 0 then screen
    else
      var s := screen[Offset(SavedFirst(a)) := CellGlyph(dots, SavedFirst(a))];
      if a.svn == 2 then s[Offset(SavedSecond(a)) := CellGlyph(dots, SavedSecond(a))] else s
  }

  function FirstGlyph(a: Actor): byte {
    if a.y % 2 == 1 then (if a.rev == 0 then G_HALF_B else G_HALF_T)
    else if a.x % 2 == 1 then (if a.rev == 0 then G_HALF_R else G_HALF_L)
    else a.glyph
  }

  function SecondGlyph(a: Actor): byte {
    if a.y % 2 == 1 then (if a.rev == 0 then G_HALF_T else G_HALF_B)
    else (if a.rev == 0 then G_HALF_L else G_HALF_R)
  }

  function DrawnScreen(a: Actor, screen: seq<byte>): seq<byte>
    requires |screen| == SCREEN_SIZE && InMaze(a.Cell()) && InMaze(a.Partner())
  {
    var s := screen[Offset(a.Cell()) := FirstGlyph(a)];
    if a.Centred() then s else s[Offset(a.Partner()) := SecondGlyph(a)]
  }

  lemma CoveredElsewhere(actors: seq<Actor>, k: nat, a: Actor, o: int)
    requires k < |actors|
    ensures Covered(actors[k := a], o) <==>
            Covers(a, o) || exists j | 0 <= j < |actors| && j != k :: Covers(actors[j], o)
  {
    var after := actors[k := a];
    if Covered(after, o) {
      var j :| 0 <= j < |after| && Covers(after[j], o);
    }
    if Covers(a, o) {
      assert Covers(after[k], o);
    }
    if exists j | 0 <= j < |actors| && j != k :: Covers(actors[j], o) {
      var j :| 0 <= j < |actors| && j != k && Covers(actors[j], o);
      assert Covers(after[j], o);
    }
  }

  /** Erasing needs no memory of what was there: even with overlapping actors
      the vacated cells show the maze state. */
  lemma EraseKeepsFaithful(actors: seq<Actor>, dots: seq<byte>, screen: seq<byte>, picture: seq<byte>, except: int,
                           k: nat)
    requires Faithful(actors, dots, screen, picture, except) && k < |actors|
    ensures Faithful(actors[k := actors[k].Erased()], dots, ErasedScreen(actors[k], dots, screen), picture, except)
  {
    var a := actors[k];
    var after, scr := actors[k := a.Erased()], ErasedScreen(a, dots, screen);
    forall o | 0 <= o < SCREEN_SIZE && !Covered(after, o) && o != except ensures scr[o] == Rendered(picture, dots, o) {
      CoveredElsewhere(actors, k, a.Erased(), o);
      CoveredElsewhere(actors, k, a, o);
      assert actors[k := a] == actors;
      if a.svn != 0 {
        OffsetOfCell(SavedFirst(a));
        if a.svn == 2 {
          OffsetOfCell(SavedSecond(a));
        }
      }
    }
  }

  /** Drawing an actor whose footprint is erased covers exactly what it writes. */
  lemma DrawKeepsFaithful(actors: seq<Actor>, dots: seq<byte>, screen: seq<byte>, picture: seq<byte>, except: int,
                          k: nat, a: Actor)
    requires Faithful(actors, dots, screen, picture, except) && k < |actors| && actors[k].svn == 0
    requires Standable(dots, false, a.Cell()) && Standable(dots, false, a.Partner()) && (a.x % 2 == 0 || a.y % 2 == 0)
    ensures Faithful(actors[k := a.Drawn()], dots, DrawnScreen(a, screen), picture, except)
  {
    var b := a.Drawn();
    assert SavedFirst(b) == a.Cell();
    assert b.svn == 2 ==> SavedSecond(b) == a.Partner();
    var after, scr := actors[k := b], DrawnScreen(a, screen);
    forall o | 0 <= o < SCREEN_SIZE && !Covered(after, o) && o != except ensures scr[o] == Rendered(picture, dots, o) {
      CoveredElsewhere(actors, k, b, o);
      CoveredElsewhere(actors, k, actors[k], o);
      assert actors[k := actors[k]] == actors;
    }
  }

  /** Changing anything but the footprint record changes nothing on screen. */
  lemma SameFootprint(actors: seq<Actor>, dots: seq<byte>, screen: seq<byte>, picture: seq<byte>, except: int, k: nat,
                      a: Actor)
    requires Faithful(actors, dots, screen, picture, except) && k < |actors|
    requires a.svx == actors[k].svx && a.svy == actors[k].svy && a.svn == actors[k].svn
    ensures Faithful(actors[k := a], dots, screen, picture, except)
  {
    forall o ensures Covered(actors[k := a], o) == Covered(actors, o) {
      CoveredElsewhere(actors, k, a, o);
      CoveredElsewhere(actors, k, actors[k], o);
      assert actors[k := actors[k]] == actors;
    }
  }

  // ---------- facts about single steps ----------

  predicate Lands(dots: seq<byte>, a: Actor)
    requires |dots| == W * H
  {
    Standable(dots, false, a.Cell()) && Standable(dots, false, a.Partner()) && (a.x % 2 == 0 || a.y % 2 == 0)
  }

  lemma MovedErased(a: Actor, d: Dir)
    ensures a.Erased().Moved(d).Cell() == a.Moved(d).Cell() && a.Erased().Moved(d).Partner() == a.Moved(d).Partner()
    ensures a.Erased().Moved(d).x == a.Moved(d).x && a.Erased().Moved(d).y == a.Moved(d).y
    ensures a.Erased().Moved(d).svn == 0
    ensures a.Erased().Moved(d).svx == a.svx && a.Erased().Moved(d).svy == a.svy
    ensures a.Erased().Moved(d).Drawn() == a.Moved(d).Drawn()
  {
  }

  predicate LeavesMap(a: Actor) {
    (a.x == 0 && a.dir == LEFT) || (a.x == 54 && a.dir == RIGHT)
  }

  /** What Proceed draws lies on cells that are not wall. */
  lemma ProceedLands(dots: seq<byte>, player: bool, a: Actor)
    requires Sealed(dots) && OnTrack(dots, player, a) && a.dir < DIR_NONE && 0 <= a.y / 2 + DY(a.dir) < H
    ensures a.hid != 0 ==>
              a.svn == 0 && Standable(dots, false, a.Cell()) && Standable(dots, false, a.Partner()) && a.x % 2 == 0
    ensures (a.hid == 0 && (a.Centred() ==> CanMove(dots, player, a.x, a.y, a.dir) && !LeavesMap(a)))
            ==> Lands(dots, a.Moved(a.dir))
  {
    ProceedKeepsTrack(dots, player, a);
  }

  /** A corner moves into a cell that can be stood in. */
  lemma CornerLands(dots: seq<byte>, a: Actor, want: byte)
    requires Sealed(dots) && OnTrack(dots, true, a)
    requires want < DIR_NONE ==> 0 <= a.y / 2 + DY(want) < H
    requires SteerSafe(dots, a, want)
    ensures Corners(dots, a, want) ==> Lands(dots, a.(dir := want).Moved(want))
  {
    SteerKeepsTrack(dots, a, want);
  }

  /** Eating changes no wall. */
  predicate SameWalls(d: seq<byte>, e: seq<byte>) {
    |d| == |e| == W * H && forall i | 0 <= i < W * H :: d[i] == 3 <==> e[i] == 3
  }

  function Eaten(dots: seq<byte>, c: Cell): seq<byte>
    requires |dots| == W * H && InMaze(c)
  {
    if dots[Index(c)] == 1 || dots[Index(c)] == 2 then dots[Index(c) := 0] else dots
  }

  /** A dot stalls her one jiffy, an energizer three. */
  function Fed(a: Actor, dots: seq<byte>, glyph: byte): Actor
    requires |dots| == W * H && InMaze(a.Cell())
  {
    var code := dots[Index(a.Cell())];
    a.(glyph := glyph, pause := if code == 1 then 1 else if code == 2 then 3 else a.pause)
  }

  /** A landing: the pellet under her is gone and no other, a dot (1) makes her pause
      one jiffy, an energizer (2) three, and she shows the next frame. */
  ghost predicate Chewed(was: seq<byte>, now: seq<byte>, a: Actor, b: Actor, glyph: byte) {
    && |was| == |now| == 700 && a.x / 2 < 28 && a.y / 2 < 25
    && var i := 28 * (a.y / 2) + a.x / 2;
    && now[i] == (if was[i] == 1 || was[i] == 2 then 0 else was[i])
    && (forall j | 0 <= j < 700 && j != i :: now[j] == was[j])
    && b.glyph == glyph && b.pause == (if was[i] == 1 then 1 else if was[i] == 2 then 3 else a.pause)
    && b == a.(glyph := b.glyph, pause := b.pause)
  }

  lemma EatenIsChewed(dots: seq<byte>, a: Actor, glyph: byte)
    requires |dots| == W * H && InMaze(a.Cell())
    ensures Chewed(dots, Eaten(dots, a.Cell()), a, Fed(a, dots, glyph), glyph)
  {
  }

  lemma EatKeepsFaithful(actors: seq<Actor>, dots: seq<byte>, screen: seq<byte>, picture: seq<byte>, except: int,
                         c: Cell, glyph: byte, drawn: bool)
    requires Faithful(actors, dots, screen, picture, except) && InMaze(c) && !Wall(dots, c)
    requires if drawn then Covered(actors, Offset(c)) else except == -1
    ensures SameWalls(dots, Eaten(dots, c))
    ensures Faithful(actors, Eaten(dots, c), screen[Offset(c) := glyph], picture, if drawn then except else Offset(c))
  {
    var eaten := Eaten(dots, c);
    forall o: nat | o < SCREEN_SIZE && o != Offset(c)
      ensures Rendered(picture, eaten, o) == Rendered(picture, dots, o)
    {
      if InMaze(CellOf(o)) {
        IndexInjective(CellOf(o), c);
      }
    }
    forall k | 0 <= k < |actors| ensures GoodFootprint(eaten, actors[k]) {
      assert GoodFootprint(dots, actors[k]);
    }
  }

  /** Painting a cell that nothing need cover: the screen then still shows the
      maze state exactly when some footprint covers the cell or the glyph is the
      one the maze state prescribes. */
  lemma PaintShows(actors: seq<Actor>, dots: seq<byte>, screen: seq<byte>, picture: seq<byte>, c: Cell, glyph: byte)
    requires Faithful(actors, dots, screen, picture, -1) && InMaze(c) && !Wall(dots, c)
    ensures Faithful(actors, Eaten(dots, c), screen[Offset(c) := glyph], picture, -1)
            <==> Covered(actors, Offset(c)) || glyph == CellGlyph(Eaten(dots, c), c)
  {
    EatKeepsFaithful(actors, dots, screen, picture, -1, c, glyph, false);
    OffsetOfCell(c);
    var painted, o := screen[Offset(c) := glyph], Offset(c);
    assert painted[o] == glyph && Rendered(picture, Eaten(dots, c), o) == CellGlyph(Eaten(dots, c), c);
  }

  /** Whoever vanishes in a step waits in a mouth. */
  lemma VanishesToMouth(dots: seq<byte>, s: Actor)
    requires |dots| == W * H && s.dir <= DIR_NONE && (s.dir != DIR_NONE ==> 0 <= s.y / 2 + DY(s.dir) < H) && s.hid == 0
    ensures var b := Stepped(dots, true, s); b.hid != 0 ==> b.Cell().0 == 0 || b.Cell().0 == W - 1
  {
    hide CanMove;
  }

  lemma IndexInjective(c: Cell, e: Cell)
    requires InMaze(c) && InMaze(e)
    ensures 0 <= Index(c) < W * H && (Index(c) == Index(e) ==> c == e)
    ensures Offset(c) == Offset(e) ==> c == e
  {
  }

  /** While the player is hidden her far mouth shows her glyph. */
  function Phantom(player: Actor): int {
    if player.hid != 0 then Offset(player.Cell()) else -1
  }

  /** Everyone in play is on track, the player in her own stricter sense. */
  predicate Crew(dots: seq<byte>, actors: seq<Actor>) {
    && |dots| == W * H && |actors| == NACT
    && ((Idle(actors[0]) && actors[0].hid == 0) || Playing(dots, actors[0]))
    && forall k | 1 <= k < NACT :: Idle(actors[k]) || OnTrack(dots, false, actors[k])
  }

  /** The player after steering and after stepping, in one tick. */
  ghost function SteeredThen(dots: seq<byte>, a: Actor, want: byte, speed: byte): (s: Actor)
    requires Sealed(dots) && Roomy(dots) && Playing(dots, a)
    ensures Playing(dots, s) && (s.dir != DIR_NONE ==> 0 <= s.y / 2 + DY(s.dir) < H)
  {
    TickPlays(dots, a.(spd := speed), want);
    SteerPlays(dots, a.(spd := speed), want);
    Steered(dots, a.(spd := speed), want)
  }

  ghost function SteppedThen(dots: seq<byte>, a: Actor, want: byte, speed: byte): (b: Actor)
    requires Sealed(dots) && Roomy(dots) && Playing(dots, a)
    ensures Playing(dots, b) && InMaze(b.Cell())
  {
    TickPlays(dots, a.(spd := speed), want);
    Stepped(dots, true, SteeredThen(dots, a, want, speed))
  }

  ghost predicate Landed(dots: seq<byte>, a: Actor, want: byte, speed: byte)
    requires Sealed(dots) && Roomy(dots) && Playing(dots, a)
  {
    var s, b := SteeredThen(dots, a, want, speed), SteppedThen(dots, a, want, speed);
    (b.x != s.x || b.y != s.y) && b.Centred()
  }

  /** The player after a whole tick. */
  ghost function Ticked(dots: seq<byte>, a: Actor, want: byte, speed: byte, glyph: byte): Actor
    requires Sealed(dots) && Roomy(dots) && Playing(dots, a)
  {
    var b := SteppedThen(dots, a, want, speed);
    if Landed(dots, a, want, speed) then Fed(b, dots, glyph) else b
  }

  /** The maze state after it: a landing eats the cell landed on. */
  ghost function Grazed(dots: seq<byte>, a: Actor, want: byte, speed: byte): seq<byte>
    requires Sealed(dots) && Roomy(dots) && Playing(dots, a)
  {
    if Landed(dots, a, want, speed) then Eaten(dots, SteppedThen(dots, a, want, speed).Cell()) else dots
  }

  /** A whole tick of hers: steered, stepped, and fed exactly when the step took her to
      another place that is a centre. */
  lemma TickSays(dots: seq<byte>, a: Actor, want: byte, speed: byte, glyph: byte)
    requires Sealed(dots) && Roomy(dots) && Playing(dots, a)
    ensures want < 4 ==> 0 <= a.y / 2 + DY(want) < H
    ensures var s := Steered(dots, a.(spd := speed), want);
            && (s.dir != DIR_NONE ==> 0 <= s.y / 2 + DY(s.dir) < H)
            && var b := Stepped(dots, true, s);
            && var t, d := Ticked(dots, a, want, speed, glyph), Grazed(dots, a, want, speed);
            && if (b.x, b.y) != (s.x, s.y) && b.x % 2 == 0 && b.y % 2 == 0 then Chewed(dots, d, b, t, glyph)
               else t == b && d == dots
  {
    assert |dots| == W * H && a.(spd := speed).dir <= DIR_NONE;
    hide Sealed, Roomy, Playing, Steered, Stepped, Eaten, Fed, Chewed, DY, InMaze, Actor.Cell;
    TickPlays(dots, a.(spd := speed), want);
    EatenIsChewed(dots, SteppedThen(dots, a, want, speed), glyph);
  }

  /** How a step changes what she shows: drawn where she lands, gone when she
      vanishes, drawn again where she was hidden. */
  lemma StepShows(dots: seq<byte>, s: Actor)
    requires Sealed(dots) && OnTrack(dots, true, s) && (s.dir != DIR_NONE ==> 0 <= s.y / 2 + DY(s.dir) < H)
    requires OnTrack(dots, true, Stepped(dots, true, s))
    ensures var b := Stepped(dots, true, s);
            && (s.hid != 0 ==> b.x == s.x && b.y == s.y && (b.hid == 0 ==> Covers(b, Offset(s.Cell()))))
            && (s.hid == 0 && b.hid != 0 ==> (b.x != s.x || b.y != s.y) && b.Centred() && b.svn == 0)
            && (s.hid == 0 && b.hid == 0 && (b.x != s.x || b.y != s.y) && b.Centred() ==> Covers(b, Offset(b.Cell())))
  {
    assert |dots| == W * H && Standable(dots, true, s.Cell());
    hide Sealed, Wall, CanMove, OnTrack;
  }

  /** From a through a steered s to a stepped b: landing draws her or hides her,
      nothing else hides her, and hidden she is undrawn in a mouth. */
  ghost predicate Shows(a: Actor, s: Actor, b: Actor, landed: bool) {
    && (landed <==> (b.x != s.x || b.y != s.y) && b.Centred())
    && (if landed then a.hid == 0 && if b.svn == 0 then b.hid != 0 else b.hid == 0 && Covers(b, Offset(b.Cell()))
        else if a.hid == 0 then b.hid == 0
        else b.x == a.x && b.y == a.y && (b.hid == 0 ==> Covers(b, Phantom(a))))
    && (b.hid != 0 ==> b.svn == 0 && (a.hid == 0 ==> b.Cell().0 == 0 || b.Cell().0 == W - 1))
  }

  /** Read as what the rest of the tick needs. */
  lemma ShowsGives(a: Actor, s: Actor, b: Actor, landed: bool)
    requires Shows(a, s, b, landed)
    ensures landed ==> Phantom(a) == -1
    ensures landed && b.svn == 0 ==> b.hid != 0 && (b.Cell().0 == 0 || b.Cell().0 == W - 1)
    ensures landed && b.svn != 0 ==> b.hid == 0 && Covers(b, Offset(b.Cell()))
    ensures !landed ==> Phantom(a) == -1 || b.hid != 0 || Covers(b, Phantom(a))
    ensures !landed && b.hid != 0 ==> a.hid != 0 && Phantom(a) == Phantom(b)
  {
    hide Covers;
  }

  lemma ShowsFrom(dots: seq<byte>, a: Actor, s: Actor)
    requires Sealed(dots) && OnTrack(dots, true, s) && (s.dir != DIR_NONE ==> 0 <= s.y / 2 + DY(s.dir) < H)
    requires s.hid == a.hid && (a.hid != 0 ==> s.x == a.x && s.y == a.y)
    requires OnTrack(dots, true, Stepped(dots, true, s))
    ensures var b := Stepped(dots, true, s); Shows(a, s, b, (b.x != s.x || b.y != s.y) && b.Centred())
  {
    StepShows(dots, s);
    HiddenUndrawn(dots, Stepped(dots, true, s));
    if s.hid == 0 {
      VanishesToMouth(dots, s);
    }
    assert |dots| == W * H && s.Cell() == (s.x / 2, s.y / 2) && a.Cell() == (a.x / 2, a.y / 2);
    hide Sealed, OnTrack, Stepped, Covers, DY;
  }

  /** The same for a whole tick. */
  lemma TickShows(dots: seq<byte>, a: Actor, want: byte, speed: byte)
    requires Sealed(dots) && Roomy(dots) && Playing(dots, a)
    ensures var b := SteppedThen(dots, a, want, speed);
            !Wall(dots, b.Cell()) && Shows(a, SteeredThen(dots, a, want, speed), b, Landed(dots, a, want, speed))
  {
    assert |dots| == W * H;
    hide Sealed, Roomy, Playing, OnTrack, Steered, Stepped, SteerSafe, Standable, Wall, DY, Shows;
    var s := SteeredThen(dots, a, want, speed);
    SteerPlays(dots, a.(spd := speed), want);
    PlayingOnTrack(dots, s);
    PlayingOnTrack(dots, SteppedThen(dots, a, want, speed));
    SteerHides(dots, a.(spd := speed), want);
    ShowsFrom(dots, a, s);
  }

  lemma HiddenUndrawn(dots: seq<byte>, a: Actor)
    requires |dots| == W * H && OnTrack(dots, true, a)
    ensures a.hid != 0 ==> a.svn == 0
  {
  }

  lemma FedLike(dots: seq<byte>, b: Actor, glyph: byte)
    requires |dots| == W * H && InMaze(b.Cell())
    ensures var f := Fed(b, dots, glyph); f == b.(glyph := f.glyph, pause := f.pause)
  {
  }

  lemma FedCell(dots: seq<byte>, b: Actor, glyph: byte)
    requires |dots| == W * H && InMaze(b.Cell())
    ensures var f := Fed(b, dots, glyph); f.Cell() == b.Cell() && f.hid == b.hid && f.svn == b.svn
  {
  }

  /** A landing lies on the screen, and in a mouth what is left shows as a space. */
  lemma LandsInMouth(dots: seq<byte>, b: Actor)
    requires |dots| == W * H && InMaze(b.Cell()) && !Wall(dots, b.Cell())
    ensures 0 <= Offset(b.Cell()) < SCREEN_SIZE
    ensures b.Cell().0 == 0 || b.Cell().0 == W - 1 ==> CellGlyph(Eaten(dots, b.Cell()), b.Cell()) == G_SPACE
  {
    OffsetOfCell(b.Cell());
  }

  lemma SameWallsKeeps(d: seq<byte>, e: seq<byte>, actors: seq<Actor>)
    requires SameWalls(d, e) && Sealed(d) && Roomy(d) && Crew(d, actors)
    ensures Sealed(e) && Roomy(e) && Crew(e, actors)
  {
    assert forall c: Cell | InMaze(c) :: Wall(e, c) <==> Wall(d, c);
  }

  lemma SameWallsRefl(d: seq<byte>)
    requires |d| == W * H
    ensures SameWalls(d, d)
  {
  }

  lemma PlayingOnTrack(dots: seq<byte>, a: Actor)
    requires |dots| == W * H && Playing(dots, a)
    ensures OnTrack(dots, true, a) && a.dir <= DIR_NONE && InMaze(a.Cell()) && !Wall(dots, a.Cell())
  {
  }

  /** Steering moves nobody hidden. */
  lemma SteerHides(dots: seq<byte>, a: Actor, want: byte)
    requires |dots| == W * H && a.dir <= DIR_NONE && (want < DIR_NONE ==> 0 <= a.y / 2 + DY(want) < H)
    requires SteerSafe(dots, a, want)
    ensures Steered(dots, a, want).hid == a.hid
    ensures a.hid != 0 ==> Steered(dots, a, want).x == a.x && Steered(dots, a, want).y == a.y
  {
  }

  lemma CrewAfterTick(d: seq<byte>, e: seq<byte>, was: seq<Actor>, now: seq<Actor>, b: Actor)
    requires Sealed(d) && Roomy(d) && Crew(d, was) && SameWalls(d, e) && Playing(d, b)
    requires |now| == NACT && now == was[0 := now[0]] && now[0] == b.(glyph := now[0].glyph, pause := now[0].pause)
    ensures Sealed(e) && Roomy(e) && Crew(e, now) && Playing(e, now[0])
  {
    assert Playing(d, now[0]);
    SameWallsKeeps(d, e, now);
    SameWallsPlaying(d, e, now[0]);
  }

  lemma SameWallsPlaying(d: seq<byte>, e: seq<byte>, a: Actor)
    requires SameWalls(d, e) && Playing(d, a)
    ensures Playing(e, a)
  {
  }

  // ---------- what the rest of the game may do ----------

  datatype Action =
    | Key(want: byte, speed: byte, glyph: byte)
    | Step(k: nat)
    | Turn(k: nat, d: Dir)
    | Dress(k: nat, spd: byte, pause: byte, glyph: byte, rev: byte)
    | Erase(k: nat)
    | Enter(k: nat, a: Actor)

  /** The actors and the maze state at one moment. */
  datatype Scene = Scene(actors: seq<Actor>, dots: seq<byte>)

  ghost predicate Staged(c: Scene) {
    Sealed(c.dots) && Roomy(c.dots) && Crew(c.dots, c.actors)
  }

  ghost function GhostStepped(dots: seq<byte>, a: Actor): Actor
    requires Sealed(dots) && OnTrack(dots, false, a)
  {
    StepKeepsTrack(dots, false, a);
    Stepped(dots, false, a)
  }

  /** What becomes of the scene, action by action; what the game's own guards
      rule out changes nothing. */
  ghost function Acted(action: Action, c: Scene): Scene
    requires Staged(c)
  {
    match action
    case Key(want, speed, glyph) =>
      var her := c.actors[0];
      if Playing(c.dots, her)
      then Scene(c.actors[0 := Ticked(c.dots, her, want, speed, glyph)], Grazed(c.dots, her, want, speed))
      else c
    case Step(k) =>
      if 1 <= k < NACT && OnTrack(c.dots, false, c.actors[k])
      then c.(actors := c.actors[k := GhostStepped(c.dots, c.actors[k])])
      else c
    case Turn(k, d) =>
      if 1 <= k < NACT && LegalTurn(c.actors[k], d) && OnTrack(c.dots, false, c.actors[k])
      then c.(actors := c.actors[k := c.actors[k].(dir := d)])
      else c
    case Dress(k, spd, pause, glyph, rev) =>
      if k < NACT then c.(actors := c.actors[k := c.actors[k].(spd := spd, pause := pause, glyph := glyph, rev := rev)])
      else c
    case Erase(k) =>
      if k < NACT then c.(actors := c.actors[k := c.actors[k].Erased()]) else c
    case Enter(k, a) =>
      if k < NACT && c.actors[k].svn == 0 && c.actors[k].hid == 0 && a.hid == 0 && Placeable(c.dots, k, a)
      then c.(actors := c.actors[k := a.Drawn()])
      else c
  }

  /** A run of the game, scene by scene. */
  ghost predicate Plays(script: seq<Action>, scenes: seq<Scene>) {
    && |scenes| == |script| + 1
    && (forall k | 0 <= k < |scenes| :: Staged(scenes[k]))
    && (forall k | 0 <= k < |script| :: scenes[k + 1] == Acted(script[k], scenes[k]))
  }

  lemma PlaysMore(script: seq<Action>, scenes: seq<Scene>, n: nat, c: Scene)
    requires n < |script| && Plays(script[..n], scenes) && Staged(c) && c == Acted(script[n], scenes[n])
    ensures Plays(script[..n + 1], scenes + [c])
  {
    hide Acted, Staged;
    assert script[..n + 1] == script[..n] + [script[n]];
  }

  predicate Placeable(dots: seq<byte>, k: nat, a: Actor)
    requires |dots| == W * H
  {
    if k == 0 then Playing(dots, a) else OnTrack(dots, false, a)
  }

  /** A replacement that keeps the footprint, the hiding and the track. */
  predicate MayReplace(dots: seq<byte>, k: nat, a: Actor, b: Actor)
    requires |dots| == W * H
  {
    && b.svx == a.svx && b.svy == a.svy && b.svn == a.svn
    && ((Idle(a) && Idle(b)) || Placeable(dots, k, b))
    && (k == 0 ==> b.hid == a.hid && (b.hid != 0 ==> b.x == a.x && b.y == a.y))
  }

  lemma ReplaceKeepsCrew(dots: seq<byte>, actors: seq<Actor>, k: nat, b: Actor)
    requires Crew(dots, actors) && k < NACT && MayReplace(dots, k, actors[k], b)
    ensures Crew(dots, actors[k := b]) && Phantom(actors[k := b][0]) == Phantom(actors[0])
  {
  }

  lemma TurnReplaces(dots: seq<byte>, k: nat, a: Actor, d: Dir)
    requires |dots| == W * H && k > 0 && OnTrack(dots, false, a) && LegalTurn(a, d)
    ensures MayReplace(dots, k, a, a.(dir := d))
  {
    TurnKeepsTrack(dots, false, a, d);
  }

  lemma DressReplaces(dots: seq<byte>, actors: seq<Actor>, k: nat, spd: byte, pause: byte, glyph: byte, rev: byte)
    requires Crew(dots, actors) && k < NACT
    ensures MayReplace(dots, k, actors[k], actors[k].(spd := spd, pause := pause, glyph := glyph, rev := rev))
  {
    assert k > 0 ==> Idle(actors[k]) || OnTrack(dots, false, actors[k]);
  }

  lemma PlaceReplaces(dots: seq<byte>, k: nat, a: Actor, b: Actor)
    requires |dots| == W * H && a.svn == 0 && a.hid == 0 && b.hid == 0 && Placeable(dots, k, b)
    ensures MayReplace(dots, k, a, b.(svx := a.svx, svy := a.svy, svn := 0))
    ensures Placeable(dots, k, b.(svx := a.svx, svy := a.svy, svn := 0))
  {
  }

  lemma EraseKeepsCrew(dots: seq<byte>, actors: seq<Actor>, k: nat)
    requires Crew(dots, actors) && k < NACT
    ensures Crew(dots, actors[k := actors[k].Erased()])
    ensures Phantom(actors[k := actors[k].Erased()][0]) == Phantom(actors[0])
  {
  }

  lemma DrawKeepsCrew(dots: seq<byte>, actors: seq<Actor>, k: nat, a: Actor)
    requires Crew(dots, actors) && k < NACT && actors[k] == a && a.hid == 0 && Placeable(dots, k, a)
    ensures Crew(dots, actors[k := a.Drawn()]) && Phantom(actors[k := a.Drawn()][0]) == Phantom(actors[0])
    ensures Lands(dots, a)
  {
  }

  lemma StepKeepsCrew(dots: seq<byte>, actors: seq<Actor>, k: nat)
    requires Crew(dots, actors) && 1 <= k < NACT && Sealed(dots) && OnTrack(dots, false, actors[k])
    requires actors[k].dir != DIR_NONE ==> 0 <= actors[k].y / 2 + DY(actors[k].dir) < H
    ensures Crew(dots, actors[k := Stepped(dots, false, actors[k])])
  {
    StepKeepsTrack(dots, false, actors[k]);
  }

  lemma SameWallsTrans(d: seq<byte>, e: seq<byte>, f: seq<byte>)
    requires SameWalls(d, e) && SameWalls(e, f)
    ensures SameWalls(d, f)
  {
  }

  lemma StillToErase(was: seq<Actor>, now: seq<Actor>, order: seq<nat>, i: nat)
    requires |was| == NACT && i < |order| && order[i] < NACT && now == was[order[i] := was[order[i]].Erased()]
    requires forall k | 0 <= k < NACT && was[k].svn != 0 :: k in order[i..]
    ensures forall k | 0 <= k < NACT && now[k].svn != 0 :: k in order[i + 1..]
  {
    assert order[i..] == [order[i]] + order[i + 1..];
  }

  /** With every footprint erased the screen shows the maze state everywhere. */
  lemma AllErased(actors: seq<Actor>, dots: seq<byte>, screen: seq<byte>, picture: seq<byte>, except: int)
    requires Faithful(actors, dots, screen, picture, except) && forall k | 0 <= k < |actors| :: actors[k].svn == 0
    ensures |dots| == W * H && |picture| == |screen| == SCREEN_SIZE
    ensures forall o: nat | o < SCREEN_SIZE && o != except :: screen[o] == Rendered(picture, dots, o)
  {
  }

  // ---------- the arrays themselves ----------

  class Engine {
    const actors: array<Actor>
    const dots: array<byte>
    const screen: array<byte>
    ghost const picture: seq<byte>

    ghost predicate Shown(except: int)
      reads actors, dots, screen
    {
      && actors.Length == NACT && dots != screen
      && Faithful(actors[..], dots[..], screen[..], picture, except)
    }

    /** The maze drawn and nobody in it: init_actors. */
    constructor (maze: seq<byte>, walls: seq<byte>, blank: seq<byte>)
      requires |maze| == |walls| == W * H && |blank| == SCREEN_SIZE
      ensures Shown(-1) && fresh(actors) && fresh(dots) && fresh(screen)
      ensures dots[..] == maze && picture == screen[..] && FirstDrawn(picture, maze, walls, blank)
      ensures forall k | 0 <= k < NACT :: actors[k] == Nobody()
      ensures Sealed(maze) && Roomy(maze) ==> Inv()
    {
      actors := new Actor[NACT](_ => Nobody());
      dots := new byte[W * H](i requires 0 <= i < W * H => maze[i]);
      screen := new byte[SCREEN_SIZE](i requires 0 <= i < SCREEN_SIZE => blank[i]);
      picture := FirstPicture(maze, walls, blank);
      new;
      assert dots[..] == maze && screen[..] == blank;
      assert forall k | 0 <= k < |actors[..]| :: actors[..][k].svn == 0;
      FirstIsDrawn(maze, walls, blank);
      hide FirstPicture, FirstDrawn, Sealed, Roomy;
      DrawMaze(walls, blank);
      FirstIsFaithful(actors[..], maze, walls, blank);
    }

    /** draw_maze: every cell of the maze by its code. */
    method DrawMaze(walls: seq<byte>, ghost blank: seq<byte>)
      requires dots.Length == |walls| == W * H && screen.Length == |blank| == SCREEN_SIZE && dots != screen
      requires screen[..] == blank
      modifies screen
      ensures screen[..] == FirstPicture(dots[..], walls, blank)
    {
      for y := 0 to H
        invariant forall o | 0 <= o < SCREEN_SIZE ::
                    screen[o] == if o < COLS * y then FirstPicture(dots[..], walls, blank)[o] else blank[o]
      {
        for x := 0 to W
          invariant forall o | 0 <= o < SCREEN_SIZE ::
                      screen[o] == if o < COLS * y + x then FirstPicture(dots[..], walls, blank)[o] else blank[o]
        {
          var code := dots[W * y + x];
          var glyph: byte;
          if code == 3 {
            glyph := walls[W * y + x];
          } else if code == 1 {
            glyph := G_DOT;
          } else if code == 2 {
            glyph := G_BALL;
          } else if y == 10 && (x == 13 || x == 14) {
            glyph := G_HLINE;
          } else {
            glyph := G_SPACE;
          }
          FirstAt(dots[..], walls, blank, x, y);
          hide FirstPicture;
          screen[COLS * y + x] := glyph;
        }
        BesideMaze(dots[..], walls, blank, y);
      }
      assert forall o | 0 <= o < SCREEN_SIZE :: screen[..][o] == FirstPicture(dots[..], walls, blank)[o];
    }

    lemma FootprintOf(k: nat, except: int)
      requires Shown(except) && k < NACT
      ensures |dots[..]| == W * H && |screen[..]| == SCREEN_SIZE && |actors[..]| == NACT
      ensures actors[..][k] == actors[k] && GoodFootprint(dots[..], actors[k])
    {
    }

    /** An actor changed in nothing but what is not on screen. */
    method Put(k: nat, a: Actor, ghost except: int)
      requires Shown(except) && k < NACT
      requires a.svx == actors[k].svx && a.svy == actors[k].svy && a.svn == actors[k].svn
      modifies actors
      ensures Shown(except) && actors[..] == old(actors[..])[k := a]
    {
      SameFootprint(actors[..], dots[..], screen[..], picture, except, k, a);
      actors[k] := a;
      assert actors[..] == old(actors[..])[k := a];
    }

    method PaintErased(a: Actor)
      requires dots.Length == W * H && screen.Length == SCREEN_SIZE && dots != screen && GoodFootprint(dots[..], a)
      modifies screen
      ensures screen[..] == ErasedScreen(a, dots[..], old(screen[..]))
    {
      if a.svn == 0 {
        return;
      }
      var col, row := a.svx / 2, a.svy / 2;
      screen[COLS * row + col] := CellGlyph(dots[..], (col, row));
      if a.svn == 2 {
        if a.svy % 2 == 1 {
          row := row + 1;
        } else {
          col := col + 1;
        }
        screen[COLS * row + col] := CellGlyph(dots[..], (col, row));
      }
    }

    /** Vacated cells are redrawn from the maze state. */
    method EraseBlob(k: nat, ghost except: int)
      requires Shown(except) && k < NACT
      modifies actors, screen
      ensures Shown(except) && actors[..] == old(actors[..])[k := old(actors[k]).Erased()]
      ensures var a, d := old(actors[k]), old(dots[..]);
              |d| == W * H && GoodFootprint(d, a) && |old(screen[..])| == SCREEN_SIZE
                && screen[..] == ErasedScreen(a, d, old(screen[..]))
      ensures Vacated(old(actors[k]), old(dots[..]), old(screen[..]), screen[..])
    {
      FootprintOf(k, except);
      EraseKeepsFaithful(actors[..], dots[..], screen[..], picture, except, k);
      ErasedVacates(actors[k], dots[..], screen[..]);
      hide Faithful, ErasedScreen, GoodFootprint, Vacated;
      PaintErased(actors[k]);
      actors[k] := actors[k].Erased();
      assert actors[..] == old(actors[..])[k := old(actors[k]).Erased()];
    }

    method PaintDrawn(a: Actor)
      requires screen.Length == SCREEN_SIZE && InMaze(a.Cell()) && InMaze(a.Partner()) && (a.x % 2 == 0 || a.y % 2 == 0)
      modifies screen
      ensures screen[..] == DrawnScreen(a, old(screen[..]))
    {
      var at := COLS * (a.y / 2) + a.x / 2;
      if a.y % 2 == 1 {
        screen[at] := if a.rev == 0 then G_HALF_B else G_HALF_T;
        screen[at + COLS] := if a.rev == 0 then G_HALF_T else G_HALF_B;
      } else if a.x % 2 == 1 {
        screen[at] := if a.rev == 0 then G_HALF_R else G_HALF_L;
        screen[at + 1] := if a.rev == 0 then G_HALF_L else G_HALF_R;
      } else {
        screen[at] := a.glyph;
      }
    }

    /** Draws the actor where it is and records its footprint. */
    method DrawBlob(k: nat, ghost except: int)
      requires Shown(except) && k < NACT && actors[k].svn == 0
      requires dots.Length == W * H && Standable(dots[..], false, actors[k].Cell())
      requires Standable(dots[..], false, actors[k].Partner())
      requires actors[k].x % 2 == 0 || actors[k].y % 2 == 0
      modifies actors, screen
      ensures Shown(except) && actors[..] == old(actors[..])[k := old(actors[k]).Drawn()]
      ensures var a, s := old(actors[k]), old(screen[..]);
              |s| == SCREEN_SIZE && InMaze(a.Cell()) && InMaze(a.Partner()) && screen[..] == DrawnScreen(a, s)
      ensures Pictured(old(actors[k]), old(screen[..]), screen[..])
    {
      var a := actors[k];
      FootprintOf(k, except);
      DrawKeepsFaithful(actors[..], dots[..], screen[..], picture, except, k, a);
      DrawnPictures(a, screen[..]);
      hide Faithful, DrawnScreen, Pictured, Actor.Cell, Actor.Partner;
      PaintDrawn(a);
      actors[k] := a.Drawn();
      assert actors[..] == old(actors[..])[k := a.Drawn()];
    }

    /** Is the cell ahead enterable? */
    method CanMoveDir(k: nat, d: Dir) returns (free: bool)
      requires k < actors.Length && dots.Length == W * H && 0 <= actors[k].y / 2 + DY(d) < H
      ensures free <==> CanMove(dots[..], k == 0, actors[k].x, actors[k].y, d)
    {
      var etx := (actors[k].x / 2 + DX(d)) % 0x100;
      if etx >= W {
        return true;
      }
      var ety := actors[k].y / 2 + DY(d);
      if k == 0 && ety == 10 && (etx == 13 || etx == 14) {
        return false;
      }
      return dots[W * ety + etx] != 3;
    }

    /** Half a cell in the actor's direction, into cells already validated. */
    method ForceStep(k: nat, ghost except: int)
      requires Shown(except) && k < NACT && actors[k].dir < DIR_NONE
      requires dots.Length == W * H && Lands(dots[..], actors[k].Moved(actors[k].dir))
      modifies actors, screen
      ensures Shown(except) && actors[..] == old(actors[..])[k := old(actors[k].Moved(actors[k].dir).Drawn())]
    {
      hide Faithful, DrawnScreen, ErasedScreen, Actor.Moved;
      var a := actors[k];
      EraseBlob(k, except);
      var b := a.Erased().Moved(a.dir);
      MovedErased(a, a.dir);
      Put(k, b, except);
      DrawBlob(k, except);
      assert actors[..] == old(actors[..])[k := b.Drawn()];
    }

    /** One accumulator tick of any actor on its track. */
    method StepActor(k: nat, ghost except: int)
      requires Shown(except) && k < NACT && dots.Length == W * H
      requires Sealed(dots[..]) && OnTrack(dots[..], k == 0, actors[k])
      modifies actors, screen
      ensures old(actors[k]).dir != DIR_NONE ==> 0 <= old(actors[k]).y / 2 + DY(old(actors[k]).dir) < H
      ensures Shown(except) && actors[..] == old(actors[..])[k := Stepped(dots[..], k == 0, old(actors[k]))]
    {
      var d := dots[..];
      StepKeepsTrack(d, k == 0, actors[k]);
      hide Faithful, DrawnScreen, ErasedScreen, Sealed, OnTrack, CanMove, Standable, Actor.Moved;
      var a := actors[k];
      if a.pause != 0 {
        Put(k, a.(pause := a.pause - 1), except);
        return;
      }
      Put(k, a.(acc := (a.acc + a.spd) % 0x100), except);
      if a.acc + a.spd < 0x100 || a.dir == DIR_NONE {
        return;
      }
      a := actors[k];
      SameTrack(d, k == 0, old(actors[k]), a);
      Advance(k, except);
      assert actors[..] == old(actors[..])[k := Proceed(d, k == 0, a)];
    }

    /** Into the tunnel void, to come out at the far mouth four steps later. */
    method Vanish(k: nat, x: byte, ghost except: int)
      requires Shown(except) && k < NACT
      modifies actors, screen
      ensures Shown(except) && actors[..] == old(actors[..])[k := old(actors[k]).Erased().(x := x, hid := 4)]
    {
      hide Faithful, ErasedScreen;
      var a := actors[k];
      EraseBlob(k, except);
      Put(k, a.Erased().(x := x, hid := 4), except);
    }

    /** The half-cell earned by an accumulator overflow. */
    method Advance(k: nat, ghost except: int)
      requires Shown(except) && k < NACT && dots.Length == W * H
      requires Sealed(dots[..]) && OnTrack(dots[..], k == 0, actors[k])
      requires actors[k].dir < DIR_NONE && 0 <= actors[k].y / 2 + DY(actors[k].dir) < H
      modifies actors, screen
      ensures Shown(except) && actors[..] == old(actors[..])[k := Proceed(dots[..], k == 0, old(actors[k]))]
    {
      var d := dots[..];
      var a := actors[k];
      ProceedLands(d, k == 0, a);
      hide Faithful, DrawnScreen, ErasedScreen, Sealed, OnTrack, CanMove, Standable, Actor.Moved, Lands;
      if a.hid != 0 {
        Put(k, a.(hid := a.hid - 1), except);
        if a.hid == 1 {
          DrawBlob(k, except);
        }
        return;
      }
      if a.Centred() {
        var free := CanMoveDir(k, a.dir);
        if !free {
          assert actors[..] == old(actors[..])[k := a];
          return;
        }
        if a.x == 0 && a.dir == LEFT {
          Vanish(k, 54, except);
          return;
        }
        if a.x == 54 && a.dir == RIGHT {
          Vanish(k, 0, except);
          return;
        }
      }
      ForceStep(k, except);
    }

    // ---------- the player ----------

    /** The player's steering half: turns apply at once, a corner moves her. */
    method Steer(want: byte, ghost except: int)
      requires Shown(except) && dots.Length == W * H
      requires Sealed(dots[..]) && OnTrack(dots[..], true, actors[0])
      requires want < DIR_NONE ==> 0 <= actors[0].y / 2 + DY(want) < H
      requires SteerSafe(dots[..], actors[0], want)
      modifies actors, screen
      ensures Shown(except) && actors[..] == old(actors[..])[0 := Steered(dots[..], old(actors[0]), want)]
    {
      var d, a := dots[..], actors[0];
      CornerLands(d, a, want);
      hide Faithful, Sealed, OnTrack, CanMove, Standable, Lands, Actor.Moved;
      if want >= DIR_NONE || want == a.dir {
      } else if Opposite(want) == a.dir {
        Put(0, a.(dir := want), except);
        return;
      } else if a.dir == DIR_NONE {
        var free := CanMoveDir(0, want);
        if free {
          Put(0, a.(dir := want), except);
          return;
        }
      } else if a.Centred() {
        var free := CanMoveDir(0, want);
        if free {
          Put(0, a.(dir := want), except);
          ForceStep(0, except);
          assert actors[..] == old(actors[..])[0 := a.(dir := want).Moved(want).Drawn()];
          return;
        }
      }
      assert actors[..] == old(actors[..])[0 := a];
    }

    /** With glyph at c the whole screen shows the maze state exactly when some
        actor covers c or the maze state prescribes that glyph there. */
    ghost predicate ShownWhen(c: Cell, glyph: byte)
      reads actors, dots, screen
    {
      && InMaze(c) && actors.Length == NACT && dots.Length == W * H
      && (Shown(-1) <==> Covered(actors[..], Offset(c)) || glyph == CellGlyph(dots[..], c))
    }

    /** Landed on a centre: a dot or energizer is eaten and she is repainted
        with the next chomp frame. */
    method Land(glyph: byte, ghost except: int)
      requires Shown(except) && dots.Length == W * H
      requires actors[0].Centred() && InMaze(actors[0].Cell()) && !Wall(dots[..], actors[0].Cell())
      requires if actors[0].svn == 0 then except == -1 else Covers(actors[0], Offset(actors[0].Cell()))
      modifies actors, screen, dots
      ensures Shown(if old(actors[0]).svn != 0 then except else Offset(old(actors[0]).Cell()))
      ensures SameWalls(old(dots[..]), dots[..])
      ensures actors[..] == old(actors[..])[0 := Fed(old(actors[0]), old(dots[..]), glyph)]
      ensures dots[..] == Eaten(old(dots[..]), old(actors[0]).Cell())
      ensures screen[..] == old(screen[..])[Offset(old(actors[0]).Cell()) := glyph]
      ensures old(actors[0]).svn == 0 ==> ShownWhen(old(actors[0]).Cell(), glyph)
      ensures Chewed(old(dots[..]), dots[..], old(actors[0]), actors[0], glyph)
    {
      EatenIsChewed(dots[..], actors[0], glyph);
      hide Chewed;
      var a := actors[0];
      var c := a.Cell();
      var code := dots[W * c.1 + c.0];
      Put(0, Fed(a, dots[..], glyph), except);
      assert a.svn != 0 ==> Covers(actors[..][0], Offset(c));
      EatKeepsFaithful(actors[..], dots[..], screen[..], picture, except, c, glyph, a.svn != 0);
      if a.svn == 0 {
        PaintShows(actors[..], dots[..], screen[..], picture, c, glyph);
      }
      hide Faithful, Covered, CellGlyph;
      if code == 1 || code == 2 {
        dots[W * c.1 + c.0] := 0;
      }
      screen[COLS * c.1 + c.0] := glyph;
      assert dots[..] == Eaten(old(dots[..]), c);
      assert screen[..] == old(screen[..])[Offset(c) := glyph];
    }

    /** The whole invariant between ticks. */
    ghost predicate Inv()
      reads actors, dots, screen
    {
      && actors.Length == NACT && dots.Length == W * H && dots != screen
      && Sealed(dots[..]) && Roomy(dots[..]) && Crew(dots[..], actors[..])
      && Shown(Phantom(actors[0]))
    }

    /** Steering, then one step: what moves her within a tick. */
    method MovePlayer(want: byte, speed: byte) returns (moved: bool)
      requires Inv() && Playing(dots[..], actors[0])
      modifies actors, screen
      ensures Shown(Phantom(old(actors[0])))
      ensures actors[..] == old(actors[..])[0 := SteppedThen(dots[..], old(actors[0]), want, speed)]
      ensures moved && actors[0].Centred() <==> Landed(dots[..], old(actors[0]), want, speed)
    {
      ghost var d, was := dots[..], actors[..];
      assert was[0] == actors[0];
      var a := actors[0].(spd := speed);
      ghost var except := Phantom(a);
      SteerPlays(d, a, want);
      ghost var s := SteeredThen(d, was[0], want, speed);
      PlayingOnTrack(d, a);
      PlayingOnTrack(d, s);
      hide Faithful, Sealed, Roomy, Playing, OnTrack, Steered, Stepped, SteerSafe, Wall, Crew, Actor.Drawn, Standable;
      Put(0, a, except);
      Steer(want, except);
      assert actors[..][0] == s;
      var sx, sy := actors[0].x, actors[0].y;
      StepActor(0, except);
      moved := actors[0].x != sx || actors[0].y != sy;
    }

    /** One player tick: steer, step, and on landing eat and repaint. */
    method PlayerTick(want: byte, speed: byte, glyph: byte)
      requires Inv() && Playing(dots[..], actors[0])
      modifies actors, screen, dots
      ensures Inv() && Playing(dots[..], actors[0]) && SameWalls(old(dots[..]), dots[..])
      ensures actors[..] == old(actors[..])[0 := Ticked(old(dots[..]), old(actors[0]), want, speed, glyph)]
      ensures dots[..] == Grazed(old(dots[..]), old(actors[0]), want, speed)
      ensures Landed(old(dots[..]), old(actors[0]), want, speed) ==>
                screen.Length == SCREEN_SIZE && 0 <= Offset(actors[0].Cell()) < SCREEN_SIZE
                  && screen[Offset(actors[0].Cell())] == glyph
      ensures old(actors[0]).hid == 0 && actors[0].hid != 0 ==>
                Landed(old(dots[..]), old(actors[0]), want, speed)
                && (Shown(-1) <==> Covered(actors[..], Offset(actors[0].Cell())) || glyph == G_SPACE)
    {
      ghost var d, was := dots[..], actors[..];
      ghost var except := Phantom(actors[0]);
      ghost var b := SteppedThen(d, was[0], want, speed);
      TickShows(d, was[0], want, speed);
      ShowsGives(was[0], SteeredThen(d, was[0], want, speed), b, Landed(d, was[0], want, speed));
      hide Faithful, Sealed, Roomy, Playing, OnTrack, SteeredThen, SteppedThen, Landed, Wall;
      hide Crew, Covers, SameWalls, Standable, Fed, Eaten, Covered, CellGlyph, Shows, Phantom, Offset;
      var moved := MovePlayer(want, speed);
      assert actors[..][0] == b;
      if moved && actors[0].Centred() {
        LandsInMouth(d, b);
        Land(glyph, except);
        FedCell(d, b, glyph);
      } else {
        Unphantom(except);
        SameWallsRefl(d);
      }
      assert actors[..] == was[0 := Ticked(d, was[0], want, speed, glyph)];
      FedLike(d, b, glyph);
      CrewAfterTick(d, dots[..], was, actors[..], b);
    }

    /** A player drawn over the excepted cell leaves no exception. */
    lemma Unphantom(except: int)
      requires Shown(except) && (except == -1 || actors[0].hid != 0 || Covers(actors[0], except))
      ensures Shown(if actors[0].hid != 0 then except else -1)
    {
      assert Covers(actors[0], except) ==> Covers(actors[..][0], except);
    }

    // ---------- whole runs ----------

    /** Between ticks every wall cell and everything beside the maze still
        shows its first glyph. */
    lemma WallsNeverWritten(o: nat)
      requires Inv() && o < SCREEN_SIZE && (!InMaze(CellOf(o)) || Wall(dots[..], CellOf(o)))
      ensures screen.Length == |picture| == SCREEN_SIZE && screen[o] == picture[o]
    {
      var a := actors[0];
      assert actors[..][0] == a;
      if a.hid != 0 {
        PlayingOnTrack(dots[..], a);
        assert Standable(dots[..], false, a.Cell());
      }
      WallsUntouched(actors[..], dots[..], screen[..], picture, Phantom(a), o);
    }

    /** Replaces an actor that has no footprint or keeps the one it has. */
    method Recast(k: nat, a: Actor)
      requires Inv() && k < NACT && MayReplace(dots[..], k, actors[k], a)
      modifies actors
      ensures Inv() && actors[..] == old(actors[..])[k := a]
    {
      ReplaceKeepsCrew(dots[..], actors[..], k, a);
      hide Faithful, Sealed, Roomy, Crew;
      Put(k, a, Phantom(actors[0]));
    }

    ghost function Now(): Scene
      reads actors, dots
    {
      Scene(actors[..], dots[..])
    }

    /** Any one thing the game does to the actors; what its own guards rule
        out does nothing. */
    method Act(action: Action)
      requires Inv()
      modifies actors, screen, dots
      ensures Inv() && SameWalls(old(dots[..]), dots[..])
      ensures Staged(old(Now())) && Now() == Acted(action, old(Now()))
    {
      SameWallsRefl(dots[..]);
      hide Faithful, Sealed, Roomy, Crew, Playing, OnTrack, SameWalls, Ticked, Grazed, GhostStepped, Placeable;
      hide LegalTurn, MayReplace, Covered, Phantom, Actor.Drawn, Actor.Erased, Actor.Cell, Actor.Partner;
      match action
      case Key(want, speed, glyph) =>
        if Playing(dots[..], actors[0]) {
          PlayerTick(want, speed, glyph);
        }
      case Step(k) =>
        if 1 <= k < NACT && OnTrack(dots[..], false, actors[k]) {
          StepGhost(k);
        }
      case Turn(k, d) =>
        if 1 <= k < NACT && LegalTurn(actors[k], d) && OnTrack(dots[..], false, actors[k]) {
          TurnReplaces(dots[..], k, actors[k], d);
          Recast(k, actors[k].(dir := d));
        }
      case Dress(k, spd, pause, glyph, rev) =>
        if k < NACT {
          DressReplaces(dots[..], actors[..], k, spd, pause, glyph, rev);
          Recast(k, actors[k].(spd := spd, pause := pause, glyph := glyph, rev := rev));
        }
      case Erase(k) =>
        if k < NACT {
          Wipe(k);
        }
      case Enter(k, a) =>
        if k < NACT && actors[k].svn == 0 && actors[k].hid == 0 && a.hid == 0 && Placeable(dots[..], k, a) {
          Place(k, a);
        }
    }

    /** Draws an actor on a fresh place. */
    method Place(k: nat, a: Actor)
      requires Inv() && k < NACT && actors[k].svn == 0 && actors[k].hid == 0 && a.hid == 0 && Placeable(dots[..], k, a)
      modifies actors, screen
      ensures Inv() && actors[..] == old(actors[..])[k := a.Drawn()]
    {
      PlaceReplaces(dots[..], k, actors[k], a);
      var b := a.(svx := actors[k].svx, svy := actors[k].svy, svn := 0);
      assert b.Drawn() == a.Drawn();
      hide Faithful, Sealed, Roomy, Crew, Playing, OnTrack, Placeable, Actor.Drawn, MayReplace;
      ghost var was := actors[..];
      Recast(k, b);
      DrawKeepsCrew(dots[..], actors[..], k, b);
      DrawBlob(k, Phantom(actors[0]));
      assert actors[..] == was[k := a.Drawn()];
    }

    /** Wipes an actor's footprint. */
    method Wipe(k: nat)
      requires Inv() && k < NACT
      modifies actors, screen
      ensures Inv() && actors[..] == old(actors[..])[k := old(actors[k]).Erased()]
    {
      EraseKeepsCrew(dots[..], actors[..], k);
      hide Faithful, Sealed, Roomy, Crew, ErasedScreen, Actor.Erased;
      EraseBlob(k, Phantom(actors[0]));
    }

    method StepGhost(k: nat)
      requires Inv() && 1 <= k < NACT && OnTrack(dots[..], false, actors[k])
      modifies actors, screen
      ensures Inv() && Sealed(dots[..])
      ensures actors[..] == old(actors[..])[k := GhostStepped(dots[..], old(actors[k]))]
    {
      StepKeepsTrack(dots[..], false, actors[k]);
      StepKeepsCrew(dots[..], actors[..], k);
      hide Faithful, Sealed, Roomy, Crew, OnTrack, Stepped;
      StepActor(k, Phantom(actors[0]));
    }

    /** Every run of the engine, in any interleaving, goes scene by scene as the
        actions say and keeps the invariant. */
    method Run(script: seq<Action>) returns (ghost scenes: seq<Scene>)
      requires Inv()
      modifies actors, screen, dots
      ensures Inv() && SameWalls(old(dots[..]), dots[..])
      ensures Plays(script, scenes) && scenes[0] == old(Now()) && scenes[|script|] == Now()
    {
      ghost var d := dots[..];
      SameWallsRefl(d);
      scenes := [Now()];
      assert Plays(script[..0], scenes);
      hide Faithful, Sealed, Roomy, Crew, SameWalls, Plays, Acted;
      for i := 0 to |script|
        invariant Inv() && SameWalls(d, dots[..])
        invariant |scenes| == i + 1 && Plays(script[..i], scenes) && scenes[0] == old(Now()) && scenes[i] == Now()
      {
        ghost var e := dots[..];
        Act(script[i]);
        SameWallsTrans(d, e, dots[..]);
        PlaysMore(script, scenes, i, Now());
        scenes := scenes + [Now()];
      }
      assert script[..|script|] == script;
    }

    /** Erasing everyone, in any order, leaves the pure rendering of the maze
        state; only the far mouth of a hidden player may differ. */
    method EraseAll(order: seq<nat>)
      requires Inv() && (forall i | 0 <= i < |order| :: order[i] < NACT)
      requires forall k | 0 <= k < NACT && actors[k].svn != 0 :: k in order
      modifies actors, screen
      ensures |dots[..]| == W * H && |picture| == |screen[..]| == SCREEN_SIZE
      ensures forall o: nat | o < SCREEN_SIZE && o != Phantom(old(actors[0])) ::
              screen[o] == Rendered(picture, dots[..], o)
      ensures AllTrue(screen[..], dots[..], Phantom(old(actors[0])))
    {
      ghost var except := Phantom(actors[0]);
      hide Faithful, ErasedScreen, Sealed, Roomy, Crew, Phantom, Rendered, AllTrue;
      for i := 0 to |order|
        invariant Shown(except) && forall k | 0 <= k < NACT && actors[k].svn != 0 :: k in order[i..]
      {
        ghost var was := actors[..];
        EraseBlob(order[i], except);
        StillToErase(was, actors[..], order, i);
      }
      AllErased(actors[..], dots[..], screen[..], picture, except);
      assert forall o | 0 <= o < |screen[..]| :: screen[..][o] == screen[o];
      RenderedAllTrue(picture, dots[..], screen[..], except);
    }
  }

  /** What the validator promises is what the engine needs: on an accepted maze
      whose start is walled above and below and whose mouths do not touch, any
      play from its first drawing keeps the invariant. */
  method PlayBoard(ghost l: Layout, ghost target: int, ghost tolerance: int, maze: seq<byte>, walls: seq<byte>,
                   blank: seq<byte>, script: seq<Action>)
    returns (e: Engine, ghost scenes: seq<Scene>)
    requires Accepted(l, target, tolerance) && Agrees(maze, l) && |walls| == W * H && |blank| == SCREEN_SIZE
    requires l.At((13, 18)) == '#' && l.At((13, 20)) == '#' && forall y | y in l.tunnels :: y + 1 !in l.tunnels
    ensures e.Inv() && FirstDrawn(e.picture, maze, walls, blank) && SameWalls(maze, e.dots[..])
    ensures Plays(script, scenes) && scenes[0] == Scene(seq(NACT, _ => Nobody()), maze) && scenes[|script|] == e.Now()
  {
    AcceptedIsRoomy(l, target, tolerance, maze);
    hide Accepted, Agrees, Sealed, Roomy, Crew, Faithful, SameWalls;
    e := new Engine(maze, walls, blank);
    assert e.actors[..] == seq(NACT, _ => Nobody());
    scenes := e.Run(script);
  }
}
