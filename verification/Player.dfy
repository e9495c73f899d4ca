/** The player's steering, and exactly when it keeps her on the track. */
module Player {
  import opened Bytes
  import opened Wrappers
  import opened Maze
  import opened Validator
  import opened Track

  /** A wanted perpendicular turn taken at a centre, with its free half-step. */
  predicate Corners(dots: seq<byte>, a: Actor, want: byte)
    requires |dots| == W * H && a.dir <= DIR_NONE
    requires want < DIR_NONE ==> 0 <= a.y / 2 + DY(want) < H
  {
    && want < DIR_NONE && a.dir != DIR_NONE && want != a.dir && Opposite(want) != a.dir
    && a.Centred() && CanMove(dots, true, a.x, a.y, want)
  }

  /** The player after the steering half of player_tick. */
  function Steered(dots: seq<byte>, a: Actor, want: byte): Actor
    requires |dots| == W * H && a.dir <= DIR_NONE
    requires want < DIR_NONE ==> 0 <= a.y / 2 + DY(want) < H
  {
    if want >= DIR_NONE || want == a.dir then a
    else if Opposite(want) == a.dir then a.(dir := want)
    else if a.dir == DIR_NONE then (if CanMove(dots, true, a.x, a.y, want) then a.(dir := want) else a)
    else if Corners(dots, a, want) then a.(dir := want).Moved(want).Drawn()
    else a
  }

  /** What steering does not check: starting off across the axis of a straddle,
      cornering while hidden, and cornering out of the map. */
  predicate SteerSafe(dots: seq<byte>, a: Actor, want: byte)
    requires |dots| == W * H && a.dir <= DIR_NONE
    requires want < DIR_NONE ==> 0 <= a.y / 2 + DY(want) < H
  {
    if want >= DIR_NONE then true
    else if a.dir == DIR_NONE then
      !CanMove(dots, true, a.x, a.y, want) || ((a.x % 2 == 1 ==> DY(want) == 0) && (a.y % 2 == 1 ==> DX(want) == 0))
    else
      Corners(dots, a, want) ==> a.hid == 0 && InMaze((a.x / 2 + DX(want), a.y / 2 + DY(want)))
  }

  /** Steering keeps the player on her track exactly when it is safe. */
  lemma SteerKeepsTrack(dots: seq<byte>, a: Actor, want: byte)
    requires Sealed(dots) && OnTrack(dots, true, a)
    ensures want < DIR_NONE ==> 0 <= a.y / 2 + DY(want) < H
    ensures OnTrack(dots, true, Steered(dots, a, want)) <==> SteerSafe(dots, a, want)
  {
    RowsInside(dots, true, a.Cell());
    if want < DIR_NONE && Corners(dots, a, want) && a.hid == 0 {
      CornerKeepsTrack(dots, true, a, want);
    }
  }

  /** The wanted direction is a turn across the way she goes: a key that names
      neither her direction nor the opposite one. */
  predicate Across(dir: byte, want: byte) {
    dir < 4 && want < 4 && dir % 2 != want % 2
  }

  /** What a key does: a reversal counts at once; parked she starts off where the way
      is open; a turn at a centre with the way open takes her half a cell into the
      new direction; every other key is ignored. */
  predicate KeySays(dots: seq<byte>, a: Actor, b: Actor, want: byte, dx: int, dy: int)
    requires |dots| == 700
  {
    var open := want < 4 && !Shut(dots, true, a.x / 2 + dx, a.y / 2 + dy);
    if want < 4 && a.dir < 4 && !Across(a.dir, want) then b == a.(dir := want)
    else if a.dir == 4 && open then b == a.(dir := want)
    else if Across(a.dir, want) && a.x % 2 == 0 && a.y % 2 == 0 && open then
      && (b.x, b.y) == ((a.x + dx) % 256, a.y + dy) && (b.svx, b.svy, b.dir) == (b.x, b.y, want)
      && b == a.(dir := want, x := b.x, y := b.y, svx := b.svx, svy := b.svy, svn := 2)
    else b == a
  }

  lemma SteerSays(dots: seq<byte>, a: Actor, want: byte)
    requires Sealed(dots) && OnTrack(dots, true, a)
    ensures want < 4 ==> 0 <= a.y / 2 + DY(want) < H
    ensures KeySays(dots, a, Steered(dots, a, want), want,
                    if want == 1 then -1 else if want == 3 then 1 else 0,
                    if want == 0 then -1 else if want == 2 then 1 else 0)
  {
    RowsInside(dots, true, a.Cell());
    assert |dots| == W * H && a.x <= 54 && a.y <= 48 && a.dir <= DIR_NONE;
    if want < 4 {
      hide Sealed, OnTrack, CanMove, Shut, Steered, KeySays, Actor.Cell;
      HeadingIs(want);
      ShutMeaning(dots, true, a.x, a.y, want);
      KeyIsTaken(dots, a, want);
    }
  }

  lemma KeyIsTaken(dots: seq<byte>, a: Actor, want: Dir)
    requires |dots| == W * H && a.x <= 54 && a.y <= 48 && a.dir <= DIR_NONE && 0 <= a.y / 2 + DY(want) < H
    requires CanMove(dots, true, a.x, a.y, want) <==> !Shut(dots, true, a.x / 2 + DX(want), a.y / 2 + DY(want))
    ensures KeySays(dots, a, Steered(dots, a, want), want, DX(want), DY(want))
  {
    OppositeIsAlong(a.dir, want);
    hide CanMove, Shut, Across, Opposite, DX;
    if a.Centred() {
      RowAhead(a.y, want);
      MovedAcross(a, want);
      hide Actor.Moved, DY;
    }
  }

  lemma OppositeIsAlong(dir: byte, want: Dir)
    requires dir <= DIR_NONE
    ensures dir < 4 && !Across(dir, want) <==> want == dir || Opposite(want) == dir
  {
  }

  lemma RowAhead(y: byte, d: Dir)
    requires y % 2 == 0 && 0 <= y / 2 + DY(d) < H
    ensures 0 <= y + DY(d) < 0x100
  {
  }

  lemma MovedAcross(a: Actor, d: Dir)
    requires a.Centred() && 0 <= a.y + DY(d) < 0x100
    ensures a.(dir := d).Moved(d).Drawn() ==
            a.(dir := d, x := (a.x + DX(d)) % 0x100, y := a.y + DY(d), svx := (a.x + DX(d)) % 0x100, svy := a.y + DY(d),
               svn := 2)
  {
    HeadingIs(d);
  }

  /** Parked at the start straddle, UP and DOWN must be walled off. */
  lemma StartMustBeClosed(dots: seq<byte>, a: Actor, want: Dir)
    requires Sealed(dots) && OnTrack(dots, true, a) && a.x == 27 && a.y == 38 && a.dir == DIR_NONE && DX(want) == 0
    ensures OnTrack(dots, true, Steered(dots, a, want)) <==> Wall(dots, (13, 19 + DY(want)))
  {
    SteerKeepsTrack(dots, a, want);
  }

  // ---------- mazes where steering is always safe ----------

  /** The start is walled above and below and no two mouths touch. */
  ghost predicate Roomy(dots: seq<byte>)
    requires |dots| == W * H
  {
    && Wall(dots, (13, 18)) && Wall(dots, (13, 20))
    && forall y | 0 <= y < H - 1 :: Wall(dots, (0, y)) || Wall(dots, (0, y + 1))
  }

  /** On track; parked only at the start; in a mouth, facing along the tunnel. */
  predicate Playing(dots: seq<byte>, a: Actor)
    requires |dots| == W * H
  {
    && OnTrack(dots, true, a)
    && (a.dir == DIR_NONE ==> a.x == 27 && a.y == 38)
    && (a.x == 0 || a.x == 54 ==> a.dir == LEFT || a.dir == RIGHT)
  }

  lemma MouthsApart(dots: seq<byte>, a: Actor, d: Dir)
    requires Sealed(dots) && Roomy(dots) && OnTrack(dots, true, a) && (a.x == 0 || a.x == 54) && DX(d) == 0
    ensures a.Centred() && 0 <= a.y / 2 + DY(d) < H && !CanMove(dots, true, a.x, a.y, d)
  {
    RowsInside(dots, true, a.Cell());
    var y, c := a.y / 2, a.x / 2;
    assert Wall(dots, (0, y)) <==> Wall(dots, (W - 1, y));
    assert Wall(dots, (0, y + 1)) <==> Wall(dots, (W - 1, y + 1));
    assert Wall(dots, (0, y - 1)) <==> Wall(dots, (W - 1, y - 1));
    assert Wall(dots, (0, y)) || Wall(dots, (0, y + 1));
    assert Wall(dots, (0, y - 1)) || Wall(dots, (0, y));
  }

  lemma SteerPlays(dots: seq<byte>, a: Actor, want: byte)
    requires Sealed(dots) && Roomy(dots) && Playing(dots, a)
    ensures want < DIR_NONE ==> 0 <= a.y / 2 + DY(want) < H
    ensures SteerSafe(dots, a, want) && Playing(dots, Steered(dots, a, want))
  {
    assert |dots| == W * H && OnTrack(dots, true, a);
    hide Sealed, Roomy, OnTrack, Steered, SteerSafe, Playing;
    SteerKeepsTrack(dots, a, want);
    SteersSafely(dots, a, want);
    SteeredFaces(dots, a, want);
  }

  /** A playing actor never asks for what steering does not check. */
  lemma SteersSafely(dots: seq<byte>, a: Actor, want: byte)
    requires Sealed(dots) && Roomy(dots) && Playing(dots, a)
    requires want < DIR_NONE ==> 0 <= a.y / 2 + DY(want) < H
    ensures SteerSafe(dots, a, want)
  {
    assert a.hid != 0 ==> a.x == 0 || a.x == 54;
    hide Sealed, Roomy, OnTrack, CanMove, InMaze, Actor.Cell;
    if want < DIR_NONE {
      if a.dir == DIR_NONE {
        StartClosed(dots, a, want);
      } else if Corners(dots, a, want) {
        CanMoveMeaning(dots, true, a, want);
        if a.x == 0 || a.x == 54 {
          MouthsApart(dots, a, want);
        }
      }
    }
  }

  /** Steering leaves her parked at the start or not at all, and turned along the
      tunnel in a mouth. */
  lemma SteeredFaces(dots: seq<byte>, a: Actor, want: byte)
    requires Sealed(dots) && Roomy(dots) && Playing(dots, a)
    requires want < DIR_NONE ==> 0 <= a.y / 2 + DY(want) < H
    requires OnTrack(dots, true, Steered(dots, a, want))
    ensures Playing(dots, Steered(dots, a, want))
  {
    hide Sealed, Roomy, OnTrack, CanMove, InMaze, Actor.Cell;
    if want < DIR_NONE && (a.x == 0 || a.x == 54) && DX(want) == 0 {
      MouthsApart(dots, a, want);
    }
  }

  lemma StartClosed(dots: seq<byte>, a: Actor, want: Dir)
    requires Sealed(dots) && Roomy(dots) && OnTrack(dots, true, a) && a.x == 27 && a.y == 38
    ensures CanMove(dots, true, a.x, a.y, want) ==> DY(want) == 0
  {
  }

  /** A whole player tick, at any speed and any key, stays on the track. */
  lemma TickPlays(dots: seq<byte>, a: Actor, want: byte)
    requires Sealed(dots) && Roomy(dots) && Playing(dots, a)
    ensures want < DIR_NONE ==> 0 <= a.y / 2 + DY(want) < H
    ensures var s := Steered(dots, a, want);
            && (s.dir != DIR_NONE ==> 0 <= s.y / 2 + DY(s.dir) < H)
            && Playing(dots, Stepped(dots, true, s))
  {
    SteerPlays(dots, a, want);
    var s := Steered(dots, a, want);
    StepKeepsTrack(dots, true, s);
    StepPlays(dots, s);
  }

  lemma StepPlays(dots: seq<byte>, a: Actor)
    requires Sealed(dots) && Roomy(dots) && Playing(dots, a) && (a.dir != DIR_NONE ==> 0 <= a.y / 2 + DY(a.dir) < H)
    requires OnTrack(dots, true, Stepped(dots, true, a))
    ensures Playing(dots, Stepped(dots, true, a))
  {
    var b := Stepped(dots, true, a);
    StepTurns(dots, a);
    hide Sealed, Roomy, OnTrack, Stepped, DX, DY;
  }

  /** A step turns nobody, and reaches a mouth column only sideways. */
  lemma StepTurns(dots: seq<byte>, a: Actor)
    requires |dots| == W * H && a.dir <= DIR_NONE && a.x <= 54 && (a.dir != DIR_NONE ==> 0 <= a.y / 2 + DY(a.dir) < H)
    ensures var b := Stepped(dots, true, a);
            && b.dir == a.dir && (a.dir == DIR_NONE ==> b.x == a.x && b.y == a.y)
            && ((b.x == 0 || b.x == 54) && !(a.x == 0 || a.x == 54) ==> a.dir == LEFT || a.dir == RIGHT)
  {
    hide CanMove;
  }

  lemma AcceptedIsRoomy(l: Layout, target: int, tolerance: int, dots: seq<byte>)
    requires Accepted(l, target, tolerance) && Agrees(dots, l)
    requires l.At((13, 18)) == '#' && l.At((13, 20)) == '#'
    requires forall y | y in l.tunnels :: y + 1 !in l.tunnels
    ensures Sealed(dots) && Roomy(dots)
  {
    AcceptedIsSealed(l, target, tolerance, dots);
    assert l.Code((13, 18)) == WALL && l.Code((13, 20)) == WALL;
    assert Wall(dots, (13, 18)) && Wall(dots, (13, 20)) && |dots| == W * H && l.Valid();
    hide Accepted, Layout.Valid, Sealed;
    forall y | 0 <= y < H - 1 ensures Wall(dots, (0, y)) || Wall(dots, (0, y + 1)) {
      BorderRows(l, target, tolerance, y);
      BorderRows(l, target, tolerance, y + 1);
      assert Wall(dots, (0, y)) <==> l.Code((0, y)) == WALL;
      assert Wall(dots, (0, y + 1)) <==> l.Code((0, y + 1)) == WALL;
    }
  }
}
