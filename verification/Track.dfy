/** Actors on the half-cell grid: where an actor can stand in an accepted maze,
    and what one engine step does to it. */
module Track {
  import opened Bytes
  import opened Wrappers
  import opened Maze
  import opened Validator

  const DIR_NONE: byte := 4

  /** One actor's bytes.  Even coordinates are cell centres, odd ones straddle
      two cells; svx, svy, svn record what was last drawn and not yet erased. */
  datatype Actor = Actor(x: byte, y: byte, dir: byte, spd: byte, acc: byte, glyph: byte, rev: byte, hid: byte,
                         pause: byte,
                         svx: byte, svy: byte, svn: byte) {
    predicate Centred() {
      x % 2 == 0 && y % 2 == 0
    }

    function Cell(): Cell {
      (x / 2, y / 2)
    }

    /** The second cell of a straddle, the cell itself at a centre. */
    function Partner(): Cell {
      if y % 2 == 1 then (x / 2, y / 2 + 1) else if x % 2 == 1 then (x / 2 + 1, y / 2) else Cell()
    }

    /** Drawing records the position and the number of cells. */
    function Drawn(): Actor {
      this.(svx := x, svy := y, svn := if Centred() then 1 else 2)
    }

    function Erased(): Actor {
      this.(svn := 0)
    }

    /** Half a cell further, bytes wrapping. */
    function Moved(d: Dir): Actor {
      this.(x := (x + DX(d)) % 0x100, y := (y + DY(d)) % 0x100)
    }
  }

  function Index(c: Cell): int {
    W * c.1 + c.0
  }

  predicate Wall(dots: seq<byte>, c: Cell)
    requires |dots| == W * H && InMaze(c)
  {
    dots[Index(c)] == 3
  }

  /** What the engine relies on: no way off the map but through paired mouths,
      and a house open through its door only. */
  ghost predicate Sealed(dots: seq<byte>) {
    && |dots| == W * H
    && (forall x | 0 <= x < W :: Wall(dots, (x, 0)) && Wall(dots, (x, H - 1)))
    && (forall y | 0 <= y < H :: Wall(dots, (0, y)) <==> Wall(dots, (W - 1, y)))
    && Wall(dots, (12, 10)) && Wall(dots, (15, 10)) && Wall(dots, (11, 11)) && Wall(dots, (16, 11))
    && Wall(dots, (12, 12)) && Wall(dots, (13, 12)) && Wall(dots, (14, 12)) && Wall(dots, (15, 12))
  }

  // ---------- canmove ----------

  /** May the actor at (x, y) enter the next cell in direction d?  Leaving the
      map sideways always may; the player may not use the door.  The row looked
      up must exist. */
  predicate CanMove(dots: seq<byte>, player: bool, x: byte, y: byte, d: Dir)
    requires |dots| == W * H && 0 <= y / 2 + DY(d) < H
  {
    var etx := (x / 2 + DX(d)) % 0x100;
    if etx >= W then true
    else
      var ety := y / 2 + DY(d);
      !(player && ety == 10 && (etx == 13 || etx == 14)) && !Wall(dots, (etx, ety))
  }

  // ---------- where actors can be ----------

  /** Cells an actor may be in: the player never enters the house. */
  predicate Standable(dots: seq<byte>, player: bool, c: Cell)
    requires |dots| == W * H
  {
    InMaze(c) && !Wall(dots, c) && (player ==> !GhostOnly(c))
  }

  /** On the grid, off the walls, turned along the axis it straddles; in the
      tunnel void it waits at the far mouth with nothing drawn. */
  predicate OnTrack(dots: seq<byte>, player: bool, a: Actor)
    requires |dots| == W * H
  {
    && a.x <= 54 && a.y <= 48 && (a.x % 2 == 0 || a.y % 2 == 0)
    && a.dir <= DIR_NONE
    && (a.x % 2 == 1 ==> a.dir == LEFT || a.dir == RIGHT || a.dir == DIR_NONE)
    && (a.y % 2 == 1 ==> a.dir == UP || a.dir == DOWN || a.dir == DIR_NONE)
    && Standable(dots, player, a.Cell()) && Standable(dots, player, a.Partner())
    && (a.hid != 0 ==> a.Centred() && (a.x == 0 || a.x == 54) && a.svn == 0)
  }

  /** The half-cell an accumulator overflow earns. */
  function Proceed(dots: seq<byte>, player: bool, a: Actor): Actor
    requires |dots| == W * H && a.dir < DIR_NONE && 0 <= a.y / 2 + DY(a.dir) < H
  {
    if a.hid != 0 then
      var b := a.(hid := a.hid - 1);
      if b.hid != 0 then b else b.Drawn()
    else if a.Centred() && !CanMove(dots, player, a.x, a.y, a.dir) then a
    else if a.Centred() && a.x == 0 && a.dir == LEFT then a.Erased().(x := 54, hid := 4)
    else if a.Centred() && a.x == 54 && a.dir == RIGHT then a.Erased().(x := 0, hid := 4)
    else a.Moved(a.dir).Drawn()
  }

  /** One accumulator tick, as step_actor computes it. */
  function Stepped(dots: seq<byte>, player: bool, a: Actor): Actor
    requires |dots| == W * H && a.dir <= DIR_NONE
    requires a.dir != DIR_NONE ==> 0 <= a.y / 2 + DY(a.dir) < H
  {
    if a.pause != 0 then a.(pause := a.pause - 1)
    else
      var b := a.(acc := (a.acc + a.spd) % 0x100);
      if a.acc + a.spd < 0x100 || a.dir == DIR_NONE then b else Proceed(dots, player, b)
  }

  // ---------- what sealing gives ----------

  lemma RowsInside(dots: seq<byte>, player: bool, c: Cell)
    requires Sealed(dots) && Standable(dots, player, c)
    ensures 1 <= c.1 <= H - 2
  {
    assert Wall(dots, (c.0, 0)) && Wall(dots, (c.0, H - 1));
  }

  /** From a cell outside the house the only house cells next door are the two
      door cells, entered downwards from row 9. */
  lemma HouseSealed(dots: seq<byte>, c: Cell, d: Dir)
    requires Sealed(dots) && InMaze(c) && !Wall(dots, c) && !GhostOnly(c)
    ensures var n := (c.0 + DX(d), c.1 + DY(d));
            GhostOnly(n) <==> d == DOWN && c.1 == 9 && (c.0 == 13 || c.0 == 14)
  {
    var n := (c.0 + DX(d), c.1 + DY(d));
    if GhostOnly(n) {
      assert c != (12, 10) && c != (15, 10) && c != (11, 11) && c != (16, 11);
      assert c != (12, 12) && c != (13, 12) && c != (14, 12) && c != (15, 12);
    }
  }

  /** The cell canmove looks up is the cell the step enters. */
  lemma CanMoveMeaning(dots: seq<byte>, player: bool, a: Actor, d: Dir)
    requires Sealed(dots) && OnTrack(dots, player, a) && a.Centred()
    ensures 0 <= a.y / 2 + DY(d) < H
    ensures var n := (a.x / 2 + DX(d), a.y / 2 + DY(d));
            && (CanMove(dots, player, a.x, a.y, d) <==> !InMaze(n) || Standable(dots, player, n))
            && (!InMaze(n) <==> (a.x == 0 && d == LEFT) || (a.x == 54 && d == RIGHT))
  {
    RowsInside(dots, player, a.Cell());
    if player {
      HouseSealed(dots, a.Cell(), d);
    }
  }

  /** What leaves by one mouth can stand in the other. */
  lemma MouthPaired(dots: seq<byte>, player: bool, y: int)
    requires Sealed(dots) && 0 <= y < H
    ensures Standable(dots, player, (0, y)) <==> Standable(dots, player, (W - 1, y))
  {
  }

  /** A half-step from a centre straddles the cell it leaves and the next. */
  lemma MovedCells(a: Actor, d: Dir)
    requires a.Centred() && InMaze((a.x / 2 + DX(d), a.y / 2 + DY(d))) && a.x <= 54 && a.y <= 48
    ensures var b := a.Moved(d);
            && b.x == a.x + DX(d) && b.y == a.y + DY(d) && !b.Centred()
            && (b.Cell() == a.Cell() || b.Cell() == (a.x / 2 + DX(d), a.y / 2 + DY(d)))
            && (b.Partner() == a.Cell() || b.Partner() == (a.x / 2 + DX(d), a.y / 2 + DY(d)))
  {
    var cx, cy := a.x / 2, a.y / 2;
    assert a.x == 2 * cx && a.y == 2 * cy;
    MovedIs(a, d);
    hide Actor.Moved;
    if d == UP {
      Straddles(a.x, a.y - 1, cx, cy - 1);
    } else if d == LEFT {
      Straddles(a.x - 1, a.y, cx - 1, cy);
    } else if d == DOWN {
      Straddles(a.x, a.y + 1, cx, cy);
    } else {
      Straddles(a.x + 1, a.y, cx, cy);
    }
  }

  lemma MovedIs(a: Actor, d: Dir)
    requires 0 <= a.x + DX(d) < 0x100 && 0 <= a.y + DY(d) < 0x100
    ensures a.Moved(d) == a.(x := a.x + DX(d), y := a.y + DY(d))
  {
  }

  lemma Straddles(x: int, y: int, cx: int, cy: int)
    ensures x == 2 * cx + 1 ==> x / 2 == cx && x % 2 == 1
    ensures x == 2 * cx ==> x / 2 == cx && x % 2 == 0
    ensures y == 2 * cy + 1 ==> y / 2 == cy && y % 2 == 1
    ensures y == 2 * cy ==> y / 2 == cy && y % 2 == 0
  {
  }

  /** A half-step out of a straddle ends at the centre of one of its cells. */
  lemma MovedBack(a: Actor, d: Dir)
    requires !a.Centred() && (a.x % 2 == 0 || a.y % 2 == 0) && a.x <= 54 && a.y <= 48
    requires (a.x % 2 == 1 ==> DX(d) != 0) && (a.y % 2 == 1 ==> DY(d) != 0) && InMaze(a.Partner())
    ensures var b := a.Moved(d);
            && b.x == a.x + DX(d) && b.y == a.y + DY(d) && b.Centred() && b.x <= 54 && b.y <= 48
            && (b.Cell() == a.Cell() || b.Cell() == a.Partner()) && b.Partner() == b.Cell()
  {
    var cx, cy := a.x / 2, a.y / 2;
    Straddles(a.x, a.y, cx, cy);
    MovedIs(a, d);
    hide Actor.Moved;
    if d == UP {
      Straddles(a.x, a.y - 1, cx, cy);
    } else if d == LEFT {
      Straddles(a.x - 1, a.y, cx, cy);
    } else if d == DOWN {
      Straddles(a.x, a.y + 1, cx, cy + 1);
    } else {
      Straddles(a.x + 1, a.y, cx + 1, cy);
    }
  }

  /** Half a step into a standable cell, from a centre or out of a straddle. */
  lemma MoveKeepsTrack(dots: seq<byte>, player: bool, a: Actor, d: Dir)
    requires |dots| == W * H && OnTrack(dots, player, a) && a.hid == 0 && a.dir == d
    requires a.Centred() ==> Standable(dots, player, (a.x / 2 + DX(d), a.y / 2 + DY(d)))
    ensures OnTrack(dots, player, a.Moved(d).Drawn())
  {
    assert a.Centred() ==> InMaze((a.x / 2 + DX(d), a.y / 2 + DY(d)));
    assert InMaze(a.Partner());
    var b := a.Moved(d);
    assert b.Drawn().Cell() == b.Cell() && b.Drawn().Partner() == b.Partner() && b.dir == d && b.hid == 0;
    hide Standable, Actor.Moved, Actor.Cell, Actor.Partner;
    if a.Centred() {
      MovedCells(a, d);
    } else {
      MovedBack(a, d);
    }
    DirAxis(d);
  }

  lemma DirAxis(d: Dir)
    ensures DX(d) == 0 <==> d == UP || d == DOWN
    ensures DY(d) == 0 <==> d == LEFT || d == RIGHT
  {
  }

  lemma VoidKeepsTrack(dots: seq<byte>, player: bool, a: Actor, x: byte)
    requires Sealed(dots) && OnTrack(dots, player, a) && a.Centred() && (a.x == 0 || a.x == 54) && x == 54 - a.x
    ensures OnTrack(dots, player, a.Erased().(x := x, hid := 4))
  {
    MouthPaired(dots, player, a.y / 2);
  }

  lemma ProceedKeepsTrack(dots: seq<byte>, player: bool, a: Actor)
    requires Sealed(dots) && OnTrack(dots, player, a) && a.dir < DIR_NONE && 0 <= a.y / 2 + DY(a.dir) < H
    ensures OnTrack(dots, player, Proceed(dots, player, a))
  {
    assert |dots| == W * H;
    hide Sealed, Wall, Standable, CanMove, Actor.Moved;
    if a.hid == 0 {
      if a.Centred() {
        CanMoveMeaning(dots, player, a, a.dir);
        if !InMaze((a.x / 2 + DX(a.dir), a.y / 2 + DY(a.dir))) {
          VoidKeepsTrack(dots, player, a, 54 - a.x);
        } else if CanMove(dots, player, a.x, a.y, a.dir) {
          MoveKeepsTrack(dots, player, a, a.dir);
        }
      } else {
        MoveKeepsTrack(dots, player, a, a.dir);
      }
    }
  }

  /** A step keeps every actor on its track. */
  lemma StepKeepsTrack(dots: seq<byte>, player: bool, a: Actor)
    requires Sealed(dots) && OnTrack(dots, player, a)
    ensures a.dir != DIR_NONE ==> 0 <= a.y / 2 + DY(a.dir) < H
    ensures OnTrack(dots, player, Stepped(dots, player, a))
  {
    RowsInside(dots, player, a.Cell());
    var b := a.(acc := (a.acc + a.spd) % 0x100);
    SameTrack(dots, player, a, b);
    SameTrack(dots, player, a, a.(pause := if a.pause > 0 then a.pause - 1 else 0));
    assert a.dir <= DIR_NONE && |dots| == W * H && (a.dir != DIR_NONE ==> 0 <= a.y / 2 + DY(a.dir) < H);
    hide OnTrack, Sealed, Proceed, DY, Standable;
    if a.dir != DIR_NONE {
      ProceedKeepsTrack(dots, player, b);
    }
  }

  /** The way into the cell next door is shut: a wall, or for the player the
      door. */
  predicate Shut(dots: seq<byte>, player: bool, x: int, y: int)
    requires |dots| == 700
  {
    0 <= x < 28 && 0 <= y < 25 && (dots[28 * y + x] == 3 || (player && y == 10 && 13 <= x <= 14))
  }

  /** An actor half a cell further along (dx, dy): from a centre only into an open
      cell; out of one mouth it hides four half-cells at the other, then shows. */
  predicate HalfFurther(dots: seq<byte>, player: bool, a: Actor, b: Actor, dx: int, dy: int)
    requires |dots| == 700
  {
    var centre := a.x % 2 == 0 && a.y % 2 == 0;
    && (a.hid > 1 ==> b == a.(hid := a.hid - 1))
    && (a.hid == 1 ==> b == a.(hid := 0, svx := a.x, svy := a.y, svn := 1))
    && (a.hid == 0 ==>
          if centre && Shut(dots, player, a.x / 2 + dx, a.y / 2 + dy) then b == a
          else if centre && (a.x + dx < 0 || a.x + dx > 54) then
            a.x + b.x == 54 && b == a.(x := b.x, hid := 4, svn := 0)
          else
            && (b.x, b.y) == (a.x + dx, a.y + dy) && (b.svx, b.svy) == (b.x, b.y)
            && b.svn == (if centre then 2 else 1)
            && b == a.(x := b.x, y := b.y, svx := b.svx, svy := b.svy, svn := b.svn))
  }

  /** A tick for every actor on its track: a pause runs down; otherwise the speed is
      accumulated and each overflow earns half a cell in the actor's direction. */
  lemma StepSays(dots: seq<byte>, player: bool, a: Actor)
    requires Sealed(dots) && OnTrack(dots, player, a)
    ensures a.dir != DIR_NONE ==> 0 <= a.y / 2 + DY(a.dir) < H
    ensures a.pause > 0 ==> Stepped(dots, player, a) == a.(pause := a.pause - 1)
    ensures a.pause == 0 && (a.acc + a.spd < 256 || a.dir == 4) ==>
              Stepped(dots, player, a) == a.(acc := (a.acc + a.spd) % 256)
    ensures a.pause == 0 && a.acc + a.spd >= 256 && a.dir < 4 ==>
              HalfFurther(dots, player, a.(acc := a.acc + a.spd - 256), Stepped(dots, player, a),
                       if a.dir == 1 then -1 else if a.dir == 3 then 1 else 0,
                       if a.dir == 0 then -1 else if a.dir == 2 then 1 else 0)
  {
    RowsInside(dots, player, a.Cell());
    assert a.dir <= DIR_NONE;
    if a.pause == 0 && a.acc + a.spd >= 256 && a.dir < 4 {
      var b := a.(acc := a.acc + a.spd - 256);
      SameTrack(dots, player, a, b);
      ProceedSays(dots, player, b);
      HeadingIs(a.dir);
      hide Sealed, OnTrack, HalfFurther, Proceed, DX, DY, Standable;
    }
  }

  lemma ShutMeaning(dots: seq<byte>, player: bool, x: byte, y: byte, d: Dir)
    requires |dots| == W * H && x <= 54 && 0 <= y / 2 + DY(d) < H
    ensures CanMove(dots, player, x, y, d) <==> !Shut(dots, player, x / 2 + DX(d), y / 2 + DY(d))
  {
    assert -1 <= x / 2 + DX(d) <= W;
  }

  lemma HeadingIs(d: Dir)
    ensures DX(d) == (if d == 1 then -1 else if d == 3 then 1 else 0)
    ensures DY(d) == (if d == 0 then -1 else if d == 2 then 1 else 0)
  {
  }

  /** Where half a step leads, in numbers. */
  lemma MovedWhere(dots: seq<byte>, player: bool, a: Actor)
    requires |dots| == W * H && OnTrack(dots, player, a) && a.dir < 4
    requires a.Centred() ==> InMaze((a.x / 2 + DX(a.dir), a.y / 2 + DY(a.dir)))
    ensures 0 <= a.x + DX(a.dir) < 0x100 && 0 <= a.y + DY(a.dir) < 0x100
    ensures a.Moved(a.dir).Drawn() ==
            a.(x := a.x + DX(a.dir), y := a.y + DY(a.dir), svx := a.x + DX(a.dir), svy := a.y + DY(a.dir),
               svn := if a.Centred() then 2 else 1)
  {
    assert InMaze(a.Partner()) && a.x <= 54 && a.y <= 48 && (a.x % 2 == 0 || a.y % 2 == 0);
    DirAxis(a.dir);
    hide Actor.Cell, Actor.Partner, Standable, InMaze;
    if a.Centred() {
      MovedCells(a, a.dir);
    } else {
      MovedBack(a, a.dir);
    }
    assert a.Moved(a.dir) == a.(x := a.x + DX(a.dir), y := a.y + DY(a.dir));
  }

  lemma HiddenSays(dots: seq<byte>, player: bool, a: Actor)
    requires |dots| == W * H && a.hid != 0 && a.Centred() && a.dir < 4 && 0 <= a.y / 2 + DY(a.dir) < H
    ensures HalfFurther(dots, player, a, Proceed(dots, player, a), DX(a.dir), DY(a.dir))
  {
    hide CanMove, Shut;
  }

  lemma StraddleSays(dots: seq<byte>, player: bool, a: Actor)
    requires |dots| == W * H && OnTrack(dots, player, a) && a.dir < 4 && 0 <= a.y / 2 + DY(a.dir) < H
    requires a.hid == 0 && !a.Centred()
    ensures HalfFurther(dots, player, a, Proceed(dots, player, a), DX(a.dir), DY(a.dir))
  {
    MovedWhere(dots, player, a);
    hide OnTrack, CanMove, Shut, DX, DY, Actor.Moved, Actor.Drawn;
  }

  lemma ShutSays(dots: seq<byte>, player: bool, a: Actor)
    requires |dots| == W * H && a.hid == 0 && a.Centred() && a.dir < 4 && 0 <= a.y / 2 + DY(a.dir) < H
    requires Shut(dots, player, a.x / 2 + DX(a.dir), a.y / 2 + DY(a.dir)) && !CanMove(dots, player, a.x, a.y, a.dir)
    ensures HalfFurther(dots, player, a, Proceed(dots, player, a), DX(a.dir), DY(a.dir))
  {
    hide Shut, CanMove, DX, Actor.Moved, Actor.Drawn;
  }

  lemma MouthSays(dots: seq<byte>, player: bool, a: Actor)
    requires |dots| == W * H && a.hid == 0 && a.Centred() && a.dir < 4 && 0 <= a.y / 2 + DY(a.dir) < H
    requires !Shut(dots, player, a.x / 2 + DX(a.dir), a.y / 2 + DY(a.dir)) && CanMove(dots, player, a.x, a.y, a.dir)
    requires (a.x == 0 && a.dir == LEFT) || (a.x == 54 && a.dir == RIGHT)
    ensures HalfFurther(dots, player, a, Proceed(dots, player, a), DX(a.dir), DY(a.dir))
  {
    hide Shut, CanMove, DY, Actor.Moved, Actor.Drawn;
  }

  lemma WaySays(dots: seq<byte>, player: bool, a: Actor)
    requires |dots| == W * H && OnTrack(dots, player, a) && a.dir < 4 && 0 <= a.y / 2 + DY(a.dir) < H
    requires !Shut(dots, player, a.x / 2 + DX(a.dir), a.y / 2 + DY(a.dir)) && CanMove(dots, player, a.x, a.y, a.dir)
    requires a.hid == 0 && a.Centred() && InMaze((a.x / 2 + DX(a.dir), a.y / 2 + DY(a.dir)))
    requires !(a.x == 0 && a.dir == LEFT) && !(a.x == 54 && a.dir == RIGHT)
    ensures HalfFurther(dots, player, a, Proceed(dots, player, a), DX(a.dir), DY(a.dir))
  {
    MovedWhere(dots, player, a);
    AheadOf(a.x, a.dir);
    hide OnTrack, Shut, CanMove, DX, DY, InMaze, Standable, Actor.Moved, Actor.Drawn;
  }

  lemma CentreSays(dots: seq<byte>, player: bool, a: Actor)
    requires Sealed(dots) && OnTrack(dots, player, a) && a.dir < 4 && 0 <= a.y / 2 + DY(a.dir) < H
    requires a.hid == 0 && a.Centred()
    ensures HalfFurther(dots, player, a, Proceed(dots, player, a), DX(a.dir), DY(a.dir))
  {
    assert |dots| == W * H && a.x <= 54;
    hide Sealed, OnTrack, CanMove, Shut, DX, DY, Standable, InMaze, HalfFurther, Proceed, Actor.Centred;
    ShutMeaning(dots, player, a.x, a.y, a.dir);
    CanMoveMeaning(dots, player, a, a.dir);
    if !CanMove(dots, player, a.x, a.y, a.dir) {
      ShutSays(dots, player, a);
    } else if InMaze((a.x / 2 + DX(a.dir), a.y / 2 + DY(a.dir))) {
      WaySays(dots, player, a);
    } else {
      MouthSays(dots, player, a);
    }
  }

  lemma AheadOf(x: byte, d: Dir)
    requires x <= 54 && x % 2 == 0 && 0 <= x / 2 + DX(d) < W
    ensures 0 <= x + DX(d) <= 54
  {
  }

  lemma ProceedSays(dots: seq<byte>, player: bool, a: Actor)
    requires Sealed(dots) && OnTrack(dots, player, a) && a.dir < 4 && 0 <= a.y / 2 + DY(a.dir) < H
    ensures HalfFurther(dots, player, a, Proceed(dots, player, a), DX(a.dir), DY(a.dir))
  {
    assert a.hid != 0 ==> a.Centred();
    hide HalfFurther, Proceed, OnTrack, Sealed, Actor.Centred;
    if a.hid != 0 {
      HiddenSays(dots, player, a);
    } else if a.Centred() {
      CentreSays(dots, player, a);
    } else {
      StraddleSays(dots, player, a);
    }
  }

  lemma SameTrack(dots: seq<byte>, player: bool, a: Actor, b: Actor)
    requires |dots| == W * H && OnTrack(dots, player, a)
    requires b == a.(acc := b.acc, spd := b.spd, pause := b.pause, glyph := b.glyph, rev := b.rev)
    ensures OnTrack(dots, player, b)
  {
  }

  /** A turn at a centre, or a reversal anywhere. */
  predicate LegalTurn(a: Actor, d: Dir) {
    a.Centred() || (a.dir < DIR_NONE && d == Opposite(a.dir)) || d == a.dir
  }

  lemma TurnKeepsTrack(dots: seq<byte>, player: bool, a: Actor, d: Dir)
    requires |dots| == W * H && OnTrack(dots, player, a) && LegalTurn(a, d)
    ensures OnTrack(dots, player, a.(dir := d))
  {
  }

  /** The cornering half-step: it stays on track exactly when the cell turned
      into is on the map; canmove alone would also let it leave by a mouth. */
  lemma CornerKeepsTrack(dots: seq<byte>, player: bool, a: Actor, d: Dir)
    requires Sealed(dots) && OnTrack(dots, player, a) && a.Centred() && a.hid == 0
    requires 0 <= a.y / 2 + DY(d) < H && CanMove(dots, player, a.x, a.y, d)
    ensures OnTrack(dots, player, a.(dir := d).Moved(d).Drawn()) <==> InMaze((a.x / 2 + DX(d), a.y / 2 + DY(d)))
  {
    CanMoveMeaning(dots, player, a, d);
    if InMaze((a.x / 2 + DX(d), a.y / 2 + DY(d))) {
      MoveKeepsTrack(dots, player, a.(dir := d), d);
    }
  }

  // ---------- acceptance seals the maze ----------

  /** The working array holds the layout's walls; dots may have been eaten. */
  ghost predicate Agrees(dots: seq<byte>, l: Layout) {
    l.Valid() && |dots| == W * H && forall c: Cell | InMaze(c) :: Wall(dots, c) <==> l.Code(c) == WALL
  }

  /** A standable border cell lies on a tunnel row. */
  lemma BorderRows(l: Layout, target: int, tolerance: int, y: int)
    requires Accepted(l, target, tolerance) && 0 <= y < H
    ensures l.Code((0, y)) == WALL <==> (y == 0 || y == H - 1 || y !in l.tunnels)
    ensures l.Code((W - 1, y)) == WALL <==> (y == 0 || y == H - 1 || y !in l.tunnels)
  {
    if y == 0 || y == H - 1 {
      assert l.At((0, 0)) == '#' && l.At((0, H - 1)) == '#';
      assert l.At((W - 1, 0)) == '#' && l.At((W - 1, H - 1)) == '#';
    } else {
      assert SideRight(l, (0, y)) && SideRight(l, (W - 1, y));
    }
  }

  lemma HouseWalls(l: Layout, target: int, tolerance: int)
    requires Accepted(l, target, tolerance)
    ensures l.Code((12, 10)) == WALL && l.Code((15, 10)) == WALL && l.Code((11, 11)) == WALL && l.Code((16, 11)) == WALL
    ensures l.Code((12, 12)) == WALL && l.Code((13, 12)) == WALL && l.Code((14, 12)) == WALL && l.Code((15, 12)) == WALL
    ensures l.Code((13, 9)) != WALL && l.Code((14, 9)) != WALL && l.Code((13, 19)) != WALL && l.Code((14, 19)) != WALL
  {
    assert l.At((12, 10)) == '#' && l.At((12, 12)) == '#';
    assert l.At((15, 10)) == '#' && l.At((15, 12)) == '#';
    assert l.At((13, 12)) == '#' && l.At((14, 12)) == '#';
  }

  lemma AcceptedIsSealed(l: Layout, target: int, tolerance: int, dots: seq<byte>)
    requires Accepted(l, target, tolerance) && Agrees(dots, l)
    ensures Sealed(dots)
  {
    forall x | 0 <= x < W ensures Wall(dots, (x, 0)) && Wall(dots, (x, H - 1)) {
      assert l.At((x, 0)) == '#' && l.At((x, H - 1)) == '#';
      assert l.Code((x, 0)) == WALL && l.Code((x, H - 1)) == WALL;
    }
    forall y | 0 <= y < H ensures Wall(dots, (0, y)) <==> Wall(dots, (W - 1, y)) {
      BorderRows(l, target, tolerance, y);
      assert Wall(dots, (0, y)) <==> l.Code((0, y)) == WALL;
    }
    HouseWalls(l, target, tolerance);
  }
}
