/** The four ghosts outside their house: how a direction is chosen, and what an
    accepted maze guarantees about where they go. */
module Ghosts {
  import opened Bytes
  import opened Wrappers
  import opened Maze
  import opened Validator
  import opened Track
  import opened FruitRoute
  import opened GhostMath

  const HOUSED: byte := 0
  const NORM: byte := 1
  const FRIGHT: byte := 2
  const EYES: byte := 3

  function Opp(d: byte): byte {
    if d < DIR_NONE then Opposite(d) else d
  }

  // ---------- the candidates ----------

  /** Only eyes may step down from row 9 into the door. */
  predicate DoorGuard(state: byte, x: byte, y: byte, d: Dir) {
    d == DOWN && state != EYES && y / 2 == 9 && (x / 2 == 13 || x / 2 == 14)
  }

  predicate Candidate(dots: seq<byte>, state: byte, a: Actor, d: Dir)
    requires |dots| == W * H && 0 <= a.y / 2 + DY(d) < H
  {
    Opp(a.dir) != d && !DoorGuard(state, a.x, a.y, d) && CanMove(dots, false, a.x, a.y, d)
  }

  /** The candidates among the first n directions, in priority order. */
  function Candidates(dots: seq<byte>, state: byte, a: Actor, n: nat): seq<Dir>
    requires |dots| == W * H && n <= 4 && 1 <= a.y / 2 <= H - 2
  {
    if n == 0 then []
    else Candidates(dots, state, a, n - 1) + (if Candidate(dots, state, a, n - 1) then [n - 1] else [])
  }

  /** Each candidate once, in the order of the directions. */
  lemma {:induction false} CandidatesAre(dots: seq<byte>, state: byte, a: Actor, n: nat)
    requires |dots| == W * H && n <= 4 && 1 <= a.y / 2 <= H - 2
    ensures forall d: Dir :: d in Candidates(dots, state, a, n) <==> d < n && Candidate(dots, state, a, d)
    ensures Increasing(Candidates(dots, state, a, n))
  {
    hide Candidate;
    if n > 0 {
      CandidatesAre(dots, state, a, n - 1);
      IncreasingMore(Candidates(dots, state, a, n - 1), n - 1);
    }
  }

  predicate Increasing(ds: seq<Dir>) {
    forall i, j | 0 <= i < j < |ds| :: ds[i] < ds[j]
  }

  lemma IncreasingMore(ds: seq<Dir>, d: Dir)
    requires Increasing(ds) && forall e | e in ds :: e < d
    ensures Increasing(ds + [d])
  {
    assert forall i | 0 <= i < |ds| :: ds[i] in ds && (ds + [d])[i] == ds[i];
  }

  method BuildCandidates(dots: seq<byte>, state: byte, a: Actor) returns (cands: seq<Dir>)
    requires |dots| == W * H && 1 <= a.y / 2 <= H - 2
    ensures cands == Candidates(dots, state, a, 4)
  {
    hide Candidate;
    cands := [];
    for d := 0 to 4
      invariant cands == Candidates(dots, state, a, d)
    {
      if Candidate(dots, state, a, d) {
        cands := cands + [d];
      }
    }
  }

  // ---------- the choice ----------

  /** Random at junctions when frightened, and for Bruiser and Pixie in the
      scatter windows unless Bruiser is cruising. */
  predicate Random(state: byte, k: nat, scatter: bool, cruise: bool) {
    state == FRIGHT || (scatter && k < 3 && !(k == 1 && cruise))
  }

  /** What a ghost can see when it decides. */
  datatype Sight = Sight(k: nat, schedState: byte, cruise: bool, r: byte, px: byte, py: byte, facing: byte, baseX: byte,
                         baseY: byte) {
    predicate Valid() {
      1 <= k <= 4 && px < W && py < H && baseX < W && baseY < H
    }

    function Aim(a: Actor): Cell {
      Target(k, schedState % 2 == 0, (px, py), facing, (baseX, baseY), a.Cell())
    }
  }

  /** What a ghost brings to a jiffy: random bits, whether Bruiser is cruising, and
      where the player is; the rest of what it sees is the pack's own. */
  datatype Glance = Glance(cruise: bool, r: byte, px: byte, py: byte, facing: byte) {
    predicate Valid() {
      px < W && py < H
    }

    function By(k: nat, schedState: byte, bruiser: Actor): (s: Sight)
      ensures Valid() && 1 <= k <= 4 && bruiser.x <= 54 && bruiser.y <= 48 ==> s.Valid()
      ensures (s.k, s.schedState, s.cruise, s.r) == (k, schedState, cruise, r)
      ensures (s.px, s.py, s.facing) == (px, py, facing)
      ensures 2 * s.baseX <= bruiser.x <= 2 * s.baseX + 1 && 2 * s.baseY <= bruiser.y <= 2 * s.baseY + 1
    {
      Sight(k, schedState, cruise, r, px, py, facing, bruiser.x / 2, bruiser.y / 2)
    }
  }

  /** The decision as a rule over the candidates: with a choice it is random for
      the frightened (state 2), and in the scatter windows for Pixie (2) and for
      Bruiser (1) unless he is cruising. */
  ghost predicate Decided(cands: seq<Dir>, state: byte, a: Actor, s: Sight, d: byte) {
    if cands == [] then d == Opp(a.dir)
    else if |cands| == 1 then d == cands[0]
    else if state == 2 || (s.schedState % 2 == 0 && (s.k == 2 || (s.k == 1 && !s.cruise)))
    then d == cands[s.r % 4 % |cands|]
    else exists i: nat :: FirstNearest(cands, i, s.Aim(a), a.Cell()) && d == cands[i]
  }

  /** gdr1: two random bits reduced by repeated subtraction. */
  method Reduce(r: byte, n: nat) returns (i: nat)
    requires 1 <= n <= 4
    ensures i == r % 4 % n && i < n
  {
    i := r % 4;
    while i >= n
      invariant i % n == r % 4 % n
    {
      SubtractMod(i, n);
      i := i - n;
    }
  }

  lemma SubtractMod(i: nat, n: nat)
    requires 1 <= n <= 4 && n <= i <= 4
    ensures (i - n) % n == i % n
  {
  }

  method Decide(dots: seq<byte>, state: byte, a: Actor, s: Sight) returns (d: byte)
    requires |dots| == W * H && 1 <= a.y / 2 <= H - 2 && a.x <= 54 && a.y <= 47 && s.Valid()
    requires (state == NORM || state == FRIGHT)
    ensures Decided(Candidates(dots, state, a, 4), state, a, s, d)
  {
    hide Candidates, FirstNearest, Target;
    var cands := BuildCandidates(dots, state, a);
    if cands == [] {
      return Opp(a.dir);
    }
    if |cands| == 1 {
      return cands[0];
    }
    if Random(state, s.k, s.schedState % 2 == 0, s.cruise) {
      CandidatesFew(dots, state, a, 4);
      var i := Reduce(s.r, |cands|);
      return cands[i];
    }
    var t := CalcTarget(s.k, s.schedState, s.px, s.py, s.facing, s.baseX, s.baseY, a.x / 2, a.y / 2);
    d := Scan(cands, t, a.x, a.y);
  }

  lemma {:induction false} CandidatesFew(dots: seq<byte>, state: byte, a: Actor, n: nat)
    requires |dots| == W * H && n <= 4 && 1 <= a.y / 2 <= H - 2
    ensures |Candidates(dots, state, a, n)| <= n
  {
    if n > 0 {
      CandidatesFew(dots, state, a, n - 1);
    }
  }

  lemma DecidedIsCandidate(cands: seq<Dir>, state: byte, a: Actor, s: Sight, d: byte)
    requires Decided(cands, state, a, s, d) && cands != []
    ensures d in cands
  {
  }

  // ---------- what acceptance gives a roaming ghost ----------

  /** The board in play: an accepted maze, some of its dots eaten. */
  ghost predicate Board(l: Layout, target: int, tolerance: int, dots: seq<byte>) {
    Accepted(l, target, tolerance) && Agrees(dots, l)
  }

  lemma BoardFacts(l: Layout, target: int, tolerance: int, dots: seq<byte>)
    requires Board(l, target, tolerance, dots)
    ensures l.Valid() && |dots| == W * H && Sealed(dots)
    ensures forall c: Cell | InMaze(c) :: Wall(dots, c) <==> l.Code(c) == WALL
  {
    AcceptedIsSealed(l, target, tolerance, dots);
  }

  lemma CorridorRows(l: Layout, target: int, tolerance: int, dots: seq<byte>, c: Cell)
    requires Board(l, target, tolerance, dots) && l.Corridor(c)
    ensures 1 <= c.1 <= H - 2
    ensures (c.0 == 0 || c.0 == W - 1 ==> c.1 in l.tunnels && l.Corridor((0, c.1)) && l.Corridor((W - 1, c.1)))
  {
    BoardFacts(l, target, tolerance, dots);
    RowsInside(dots, true, c);
    BorderRows(l, target, tolerance, c.1);
    if c.0 == 0 || c.0 == W - 1 {
      MouthIsCorridor(l, target, tolerance, c.1);
    }
  }

  /** A move the ghost may choose is exactly an open neighbour of its cell. */
  lemma ExitMeaning(l: Layout, target: int, tolerance: int, dots: seq<byte>, x: byte, y: byte, state: byte, d: Dir)
    requires Board(l, target, tolerance, dots) && x % 2 == 0 && y % 2 == 0 && l.Corridor((x / 2, y / 2))
    requires state != EYES
    ensures |dots| == W * H && 1 <= y / 2 <= H - 2
    ensures l.Step((x / 2, y / 2), d).Some? <==> CanMove(dots, false, x, y, d) && !DoorGuard(state, x, y, d)
  {
    hide Accepted, Agrees, Sealed, Wall, Layout.Corridor, Layout.Step, CanMove, Layout.Code, DoorGuard;
    var c := (x / 2, y / 2);
    CorridorRows(l, target, tolerance, dots, c);
    HouseAhead(l, target, tolerance, dots, c, d);
    StepIsMove(l, dots, x, y, state, d);
  }

  lemma HouseAhead(l: Layout, target: int, tolerance: int, dots: seq<byte>, c: Cell, d: Dir)
    requires Board(l, target, tolerance, dots) && l.Corridor(c)
    ensures l.Valid() && |dots| == W * H && InMaze(c)
    ensures var n := (c.0 + DX(d), c.1 + DY(d));
            && (InMaze(n) ==> (Wall(dots, n) <==> l.Code(n) == WALL))
            && (GhostOnly(n) <==> d == DOWN && c.1 == 9 && (c.0 == 13 || c.0 == 14))
  {
    BoardFacts(l, target, tolerance, dots);
    HouseSealed(dots, c, d);
  }

  lemma StepIsMove(l: Layout, dots: seq<byte>, x: byte, y: byte, state: byte, d: Dir)
    requires l.Valid() && |dots| == W * H && InMaze((x / 2, y / 2)) && 1 <= y / 2 <= H - 2 && state != EYES
    requires x / 2 == 0 || x / 2 == W - 1 ==> y / 2 in l.tunnels
    requires var n := (x / 2 + DX(d), y / 2 + DY(d));
             && (InMaze(n) ==> (Wall(dots, n) <==> l.Code(n) == WALL))
             && (GhostOnly(n) <==> d == DOWN && y / 2 == 9 && (x / 2 == 13 || x / 2 == 14))
    ensures l.Step((x / 2, y / 2), d).Some? <==> CanMove(dots, false, x, y, d) && !DoorGuard(state, x, y, d)
  {
    hide Layout.Valid, Layout.Code, Wall;
    var c, n := (x / 2, y / 2), (x / 2 + DX(d), y / 2 + DY(d));
    if n.0 < 0 || n.0 >= W {
      assert n.1 == c.1;
    } else {
      assert InMaze(n) && (x / 2 + DX(d)) % 0x100 == n.0;
    }
  }

  /** With two open neighbours, one of them is not behind. */
  lemma TwoExits(l: Layout, c: Cell, behind: byte)
    requires l.Valid() && |l.OpenNeighbours(c)| >= 2
    ensures exists d: Dir :: d != behind && l.Step(c, d).Some?
  {
    assert |Opt(l.Step(c, UP))| <= 1;
  }

  /** Boxed in never happens: an accepted maze leaves a candidate at every
      corridor cell, whatever the ghost's direction. */
  lemma NeverBoxedIn(l: Layout, target: int, tolerance: int, dots: seq<byte>, a: Actor, state: byte)
    requires Board(l, target, tolerance, dots) && a.Centred() && l.Corridor(a.Cell()) && state != EYES
    ensures |dots| == W * H && 1 <= a.y / 2 <= H - 2 && Candidates(dots, state, a, 4) != []
  {
    assert NoDeadEnds(l) && |l.OpenNeighbours(a.Cell())| >= 2;
    TwoExits(l, a.Cell(), Opp(a.dir));
    var d: Dir :| d != Opp(a.dir) && l.Step(a.Cell(), d).Some?;
    hide Board, Candidate, Candidates, CanMove, DoorGuard;
    ExitMeaning(l, target, tolerance, dots, a.x, a.y, state, d);
    CandidateIs(dots, state, a, d);
    CandidatesAre(dots, state, a, 4);
  }

  lemma CandidateIs(dots: seq<byte>, state: byte, a: Actor, d: Dir)
    requires |dots| == W * H && 0 <= a.y / 2 + DY(d) < H
    ensures Candidate(dots, state, a, d) <==>
            Opp(a.dir) != d && !DoorGuard(state, a.x, a.y, d) && CanMove(dots, false, a.x, a.y, d)
  {
  }

  /** The candidates are the ways on from the ghost's cell, straight or round a
      corner, never back. */
  lemma CandidatesMeaning(l: Layout, target: int, tolerance: int, dots: seq<byte>, a: Actor, state: byte, d: Dir)
    requires Board(l, target, tolerance, dots) && a.Centred() && l.Corridor(a.Cell()) && state != EYES
    requires a.dir < DIR_NONE
    ensures |dots| == W * H && 1 <= a.y / 2 <= H - 2
    ensures d in Candidates(dots, state, a, 4) <==>
            l.Step((a.x / 2, a.y / 2), d).Some? && !(DX(d) == -DX(a.dir) && DY(d) == -DY(a.dir))
  {
    OppIsBack(a.dir, d);
    hide Board, Candidate, Candidates, CanMove, DoorGuard, Layout.Corridor, Layout.Step, Opp, DX, DY;
    ExitMeaning(l, target, tolerance, dots, a.x, a.y, state, d);
    CandidateIs(dots, state, a, d);
    CandidatesAre(dots, state, a, 4);
  }

  lemma OppIsBack(dir: Dir, d: byte)
    ensures Opp(dir) < DIR_NONE && DX(Opp(dir)) == -DX(dir) && DY(Opp(dir)) == -DY(dir)
    ensures d == Opp(dir) <==> d < DIR_NONE && DX(d) == -DX(dir) && DY(d) == -DY(dir)
  {
  }

  // ---------- roaming ----------

  /** In the corridors, turned along its axis; a decision latched for this
      centre is an open way, and the centre ahead is not the latched one. */
  ghost predicate Roams(l: Layout, a: Actor, latch: (byte, byte))
    requires l.Valid()
  {
    && a.x <= 54 && a.y <= 48 && (a.x % 2 == 0 || a.y % 2 == 0) && a.dir < DIR_NONE
    && (a.x % 2 == 1 ==> DX(a.dir) != 0) && (a.y % 2 == 1 ==> DY(a.dir) != 0)
    && l.Corridor(a.Cell()) && l.Corridor(a.Partner())
    && (a.hid != 0 ==> a.Centred() && (a.x == 0 || a.x == 54) && a.svn == 0)
    && if a.Centred() then latch == (a.x, a.y) ==> l.Step(a.Cell(), a.dir).Some?
       else (latch.0 as int, latch.1 as int) != (a.x + DX(a.dir), a.y + DY(a.dir))
  }

  lemma RoamsOnTrack(l: Layout, target: int, tolerance: int, dots: seq<byte>, a: Actor, latch: (byte, byte))
    requires Board(l, target, tolerance, dots) && l.Valid() && Roams(l, a, latch)
    ensures |dots| == W * H && Sealed(dots) && OnTrack(dots, false, a)
    ensures 1 <= a.y / 2 <= H - 2 && a.y <= 47
  {
    BoardFacts(l, target, tolerance, dots);
    CorridorRows(l, target, tolerance, dots, a.Cell());
    CorridorRows(l, target, tolerance, dots, a.Partner());
  }

  /** The void leads from corridor to corridor. */
  lemma FarMouth(l: Layout, target: int, tolerance: int, dots: seq<byte>, a: Actor)
    requires Board(l, target, tolerance, dots) && a.Centred() && l.Corridor(a.Cell()) && (a.x == 0 || a.x == 54)
    ensures l.Corridor(((54 - a.x) / 2, a.y / 2))
  {
    CorridorRows(l, target, tolerance, dots, a.Cell());
  }

  lemma ExitEnters(l: Layout, c: Cell, d: Dir)
    requires l.Valid() && InMaze(c) && l.Step(c, d).Some?
    ensures var n := (c.0 + DX(d), c.1 + DY(d)); InMaze(n) ==> l.Corridor(n)
    ensures !InMaze((c.0 + DX(d), c.1 + DY(d))) <==> (c.0 == 0 && d == LEFT) || (c.0 == W - 1 && d == RIGHT)
  {
  }

  lemma HiddenRoams(l: Layout, a: Actor, latch: (byte, byte))
    requires l.Valid() && Roams(l, a, latch) && a.hid != 0
    ensures Roams(l, a.(hid := a.hid - 1), latch) && (a.hid == 1 ==> Roams(l, a.(hid := 0).Drawn(), latch))
  {
    assert a.(hid := 0).Drawn().Cell() == a.Cell() && a.(hid := a.hid - 1).Cell() == a.Cell();
    assert a.(hid := 0).Drawn().Partner() == a.Partner() && a.(hid := a.hid - 1).Partner() == a.Partner();
    hide Layout.Valid, Layout.Corridor, Layout.Step;
  }

  lemma VoidRoams(l: Layout, a: Actor, latch: (byte, byte), x: byte)
    requires l.Valid() && Roams(l, a, latch) && a.Centred() && latch == (a.x, a.y)
    requires (a.x == 0 || a.x == 54) && x == 54 - a.x && l.Corridor((x / 2, a.y / 2))
    ensures Roams(l, a.Erased().(x := x, hid := 4), latch)
  {
    hide Layout.Valid, Layout.Corridor, Layout.Step;
  }

  lemma MovedRoams(l: Layout, a: Actor, latch: (byte, byte))
    requires l.Valid() && Roams(l, a, latch) && a.Centred() && a.hid == 0 && latch == (a.x, a.y)
    requires l.Corridor((a.x / 2 + DX(a.dir), a.y / 2 + DY(a.dir)))
    ensures Roams(l, a.Moved(a.dir).Drawn(), latch)
  {
    assert InMaze((a.x / 2 + DX(a.dir), a.y / 2 + DY(a.dir)));
    hide Layout.Valid, Layout.Corridor, Layout.Step;
    MovedCells(a, a.dir);
    var b := a.Moved(a.dir);
    assert b.Drawn().Cell() == b.Cell() && b.Drawn().Partner() == b.Partner();
    hide Actor.Moved, Actor.Cell, Actor.Partner;
  }

  lemma BackRoams(l: Layout, a: Actor, latch: (byte, byte))
    requires l.Valid() && Roams(l, a, latch) && !a.Centred() && a.hid == 0
    ensures Roams(l, a.Moved(a.dir).Drawn(), latch)
  {
    assert InMaze(a.Partner());
    hide Layout.Valid, Layout.Corridor, Layout.Step;
    MovedBack(a, a.dir);
    var b := a.Moved(a.dir);
    assert b.Drawn().Cell() == b.Cell() && b.Drawn().Partner() == b.Partner();
    hide Actor.Moved, Actor.Cell, Actor.Partner;
  }

  /** A centred ghost that has decided goes on into corridor. */
  lemma ProceedRoams(l: Layout, target: int, tolerance: int, dots: seq<byte>, a: Actor, latch: (byte, byte))
    requires Board(l, target, tolerance, dots) && l.Valid() && Roams(l, a, latch)
    requires (a.Centred() ==> latch == (a.x, a.y))
    ensures |dots| == W * H && a.dir < DIR_NONE && 0 <= a.y / 2 + DY(a.dir) < H
    ensures var b := Proceed(dots, false, a); Roams(l, b, latch) && b.dir == a.dir
  {
    hide Board, OnTrack, Sealed, CanMove, Layout.Valid, Layout.Step, Roams, Layout.Corridor, Actor.Moved, DX, DY;
    RoamsOnTrack(l, target, tolerance, dots, a, latch);
    RoamsFacts(l, a, latch);
    if a.hid != 0 {
      HiddenRoams(l, a, latch);
    } else if !a.Centred() {
      BackRoams(l, a, latch);
    } else {
      OpenAhead(l, target, tolerance, dots, a);
      if (a.x == 0 && a.dir == LEFT) || (a.x == 54 && a.dir == RIGHT) {
        VoidRoams(l, a, latch, 54 - a.x);
      } else {
        MovedRoams(l, a, latch);
      }
    }
  }

  lemma RoamsFacts(l: Layout, a: Actor, latch: (byte, byte))
    requires l.Valid() && Roams(l, a, latch)
    ensures a.dir < DIR_NONE && l.Corridor(a.Cell()) && (1 <= a.y / 2 <= H - 2 ==> 0 <= a.y / 2 + DY(a.dir) < H)
    ensures a.Centred() && latch == (a.x, a.y) ==> l.Step(a.Cell(), a.dir).Some?
    ensures a.Moved(a.dir).Drawn().dir == a.dir
  {
  }

  /** An open way is enterable, into corridor or off the map to the far mouth. */
  lemma OpenAhead(l: Layout, target: int, tolerance: int, dots: seq<byte>, a: Actor)
    requires Board(l, target, tolerance, dots) && l.Valid() && |dots| == W * H
    requires a.Centred() && l.Corridor(a.Cell()) && a.dir < DIR_NONE && l.Step(a.Cell(), a.dir).Some?
    requires 0 <= a.y / 2 + DY(a.dir) < H
    ensures CanMove(dots, false, a.x, a.y, a.dir)
    ensures if (a.x == 0 && a.dir == LEFT) || (a.x == 54 && a.dir == RIGHT) then l.Corridor(((54 - a.x) / 2, a.y / 2))
            else l.Corridor((a.x / 2 + DX(a.dir), a.y / 2 + DY(a.dir)))
  {
    hide Board, CanMove, Layout.Valid, Layout.Corridor, Layout.Step, DX, DY, DoorGuard, Actor.Cell;
    CentredCell(l, a);
    ExitMeaning(l, target, tolerance, dots, a.x, a.y, NORM, a.dir);
    ExitEnters(l, a.Cell(), a.dir);
    if (a.x == 0 && a.dir == LEFT) || (a.x == 54 && a.dir == RIGHT) {
      FarMouth(l, target, tolerance, dots, a);
    } else {
      assert InMaze((a.x / 2 + DX(a.dir), a.y / 2 + DY(a.dir)));
    }
  }

  lemma CentredCell(l: Layout, a: Actor)
    requires l.Valid() && a.Centred() && l.Corridor(a.Cell())
    ensures a.Cell() == (a.x / 2, a.y / 2) && InMaze(a.Cell()) && a.x <= 54
    ensures (a.Cell().0 == 0 <==> a.x == 0) && (a.Cell().0 == W - 1 <==> a.x == 54)
  {
  }

  lemma StepRoams(l: Layout, target: int, tolerance: int, dots: seq<byte>, a: Actor, latch: (byte, byte))
    requires Board(l, target, tolerance, dots) && l.Valid() && Roams(l, a, latch)
    requires (a.Centred() ==> latch == (a.x, a.y))
    ensures |dots| == W * H && a.dir < DIR_NONE && 0 <= a.y / 2 + DY(a.dir) < H
    ensures var b := Stepped(dots, false, a); Roams(l, b, latch) && b.dir == a.dir
  {
    hide Roams, Proceed, Board, Layout.Valid, DY;
    var b := a.(acc := (a.acc + a.spd) % 0x100);
    var p := a.(pause := if a.pause > 0 then a.pause - 1 else 0);
    SameRoams(l, a, b, latch);
    SameRoams(l, a, p, latch);
    ProceedRoams(l, target, tolerance, dots, b, latch);
  }

  lemma SameRoams(l: Layout, a: Actor, b: Actor, latch: (byte, byte))
    requires l.Valid() && Roams(l, a, latch)
    requires b == a.(acc := b.acc, spd := b.spd, pause := b.pause, glyph := b.glyph, rev := b.rev)
    ensures Roams(l, b, latch)
  {
    assert b.Cell() == a.Cell() && b.Partner() == a.Partner();
    hide Layout.Valid, Layout.Corridor, Layout.Step;
  }

  /** Reversing invalidates the latch, so the ghost decides again where it is. */
  lemma ReverseRoams(l: Layout, a: Actor, latch: (byte, byte))
    requires l.Valid() && Roams(l, a, latch)
    ensures Roams(l, a.(dir := Opp(a.dir)), (0xFF, latch.1))
  {
    assert a.(dir := Opp(a.dir)).Cell() == a.Cell() && a.(dir := Opp(a.dir)).Partner() == a.Partner();
    hide Layout.Valid, Layout.Corridor, Layout.Step;
  }

  /** A decision at a centre never boxes in, never reverses, never picks the
      house; latched, the ghost still roams. */
  lemma DecideRoams(l: Layout, target: int, tolerance: int, dots: seq<byte>, a: Actor, latch: (byte, byte), state: byte,
                    s: Sight, d: byte)
    requires Board(l, target, tolerance, dots) && l.Valid() && Roams(l, a, latch) && a.Centred()
    requires (state == NORM || state == FRIGHT)
    requires |dots| == W * H && 1 <= a.y / 2 <= H - 2 && Decided(Candidates(dots, state, a, 4), state, a, s, d)
    ensures Candidates(dots, state, a, 4) != [] && d < DIR_NONE && d != Opp(a.dir)
    ensures Roams(l, a.(dir := d), (a.x, a.y))
  {
    hide Board, Roams, Layout.Valid, Layout.Corridor, Layout.Step, Decided;
    hide Candidates, Candidate, CanMove, DoorGuard, Opp;
    RoamsOnTrack(l, target, tolerance, dots, a, latch);
    RoamsFacts(l, a, latch);
    NeverBoxedIn(l, target, tolerance, dots, a, state);
    CandidatesAre(dots, state, a, 4);
    DecidedIsCandidate(Candidates(dots, state, a, 4), state, a, s, d);
    CandidateIs(dots, state, a, d);
    ExitMeaning(l, target, tolerance, dots, a.x, a.y, state, d);
    LatchedRoams(l, a, latch, d);
  }

  lemma LatchedRoams(l: Layout, a: Actor, latch: (byte, byte), d: Dir)
    requires l.Valid() && Roams(l, a, latch) && a.Centred() && l.Step((a.x / 2, a.y / 2), d).Some?
    ensures Roams(l, a.(dir := d), (a.x, a.y))
  {
    assert a.(dir := d).Cell() == a.Cell() && a.(dir := d).Partner() == a.Partner();
    hide Layout.Valid, Layout.Corridor, Layout.Step;
  }

  /** What one jiffy does to a roaming ghost: a fresh centre asks for a decision
      among its candidates, and whatever happens it does not turn back. */
  ghost predicate Ticked(dots: seq<byte>, a: Actor, latch: (byte, byte), state: byte, s: Sight, spd: byte, b: Actor) {
    && |dots| == W * H && b.dir < DIR_NONE && b.dir != Opp(a.dir) && 0 <= a.y / 2 + DY(b.dir) < H
    && b == Stepped(dots, false, a.(dir := b.dir, spd := spd))
    && if a.Centred() && latch != (a.x, a.y)
       then
         && 1 <= a.y / 2 <= H - 2 && Candidates(dots, state, a, 4) != []
         && Decided(Candidates(dots, state, a, 4), state, a, s, b.dir)
       else b.dir == a.dir
  }

  method Tick(ghost l: Layout, ghost target: int, ghost tolerance: int, dots: seq<byte>, a: Actor, latch: (byte, byte),
              state: byte, s: Sight, spd: byte)
    returns (b: Actor, newLatch: (byte, byte))
    requires Board(l, target, tolerance, dots) && l.Valid() && Roams(l, a, latch) && (state == NORM || state == FRIGHT)
    requires s.Valid()
    ensures Ticked(dots, a, latch, state, s, spd, b) && Roams(l, b, newLatch)
    ensures newLatch == if a.Centred() then (a.x, a.y) else latch
  {
    hide Roams, Board, Decided, Candidates, Stepped, Sealed, OnTrack, Layout.Valid, DY;
    RoamsOnTrack(l, target, tolerance, dots, a, latch);
    RoamsFacts(l, a, latch);
    var d: byte := a.dir;
    newLatch := latch;
    if a.Centred() && latch != (a.x, a.y) {
      d := Decide(dots, state, a, s);
      DecideRoams(l, target, tolerance, dots, a, latch, state, s, d);
      newLatch := (a.x, a.y);
    } else {
      NotOpposite(d);
    }
    var c := a.(dir := d, spd := spd);
    SameRoams(l, a.(dir := d), c, newLatch);
    StepRoams(l, target, tolerance, dots, c, newLatch);
    b := Stepped(dots, false, c);
  }

  lemma NotOpposite(d: byte)
    requires d < DIR_NONE
    ensures d != Opp(d)
  {
  }

  // ---------- the scatter and chase clock ----------

  const FIRST := 420
  const SECOND := 1200
  const THIRD := 300

  /** Reversals so far against jiffies counted outside blue time: the countdown
      is exact, and the last timer's high byte never moves. */
  ghost predicate OnSchedule(state: byte, lo: byte, hi: byte, clock: nat, revs: seq<nat>) {
    if state == 0 then clock + Word((lo, hi)) == FIRST && revs == []
    else if state == 1 then clock + Word((lo, hi)) == 421 + SECOND && revs == [421] && clock >= 421
    else if state == 2 then clock + Word((lo, hi)) == 1622 + THIRD && revs == [421, 1622] && clock >= 1622
    else state == 3 && hi == 0xEF && revs == [421, 1622, 1923] && clock >= 1923
  }

  /** The schedule as a function of the clock alone. */
  lemma ScheduleByClock(state: byte, lo: byte, hi: byte, clock: nat, revs: seq<nat>)
    requires OnSchedule(state, lo, hi, clock, revs)
    ensures state == (if clock < 421 then 0 else if clock < 1622 then 1 else if clock < 1923 then 2 else 3)
    ensures forall n :: n in revs <==> Reverses(n) && n <= clock
  {
    assert 421 in [421] && 421 in [421, 1622] && 1622 in [421, 1622];
    assert 421 in [421, 1622, 1923] && 1622 in [421, 1622, 1923] && 1923 in [421, 1622, 1923];
  }

  // ---------- the ghosts themselves ----------

  /** One ghost's entries in the parallel arrays: its actor, its state and the
      centre it last decided at. */
  datatype Ghost = Ghost(a: Actor, state: byte, latch: (byte, byte)) {
    predicate Roaming() {
      state == NORM || state == FRIGHT
    }

    function Reversed(): Ghost {
      if Roaming() then this.(a := a.(dir := Opp(a.dir)), latch := (0xFF, latch.1)) else this
    }

    function Frightened(): Ghost {
      if state == NORM then this.(state := FRIGHT, a := a.(glyph := G_RING + 128)) else this
    }

    /** Back to the hunt, as ghost k looks. */
    function Recovered(k: nat): Ghost {
      if state == FRIGHT then this.(state := NORM, a := a.(glyph := GhostGlyph(k), rev := 1)) else this
    }

    /** The flash frame with so much blue time left. */
    function Flashed(left: u16): Ghost {
      if state == FRIGHT then this.(a := a.(glyph := if left / 16 % 2 == 1 then G_RING else G_RING + 128)) else this
    }

    /** A jiffy of blue time: flashing in the last window of it, recovered at
        its end. */
    function CountedDown(k: nat, frite: u16, window: byte): Ghost {
      if frite == 0 then this
      else if frite == 1 then Recovered(k)
      else if frite - 1 <= window then Flashed(frite - 1)
      else this
    }

    /** Eaten: eyes on their way home. */
    function Caught(): Ghost {
      this.(state := EYES, a := a.(glyph := G_QUOTE, rev := 0, pause := 0))
    }

    function Frozen(): Ghost {
      this.(a := a.(pause := GULP))
    }

    /** An energizer turns everyone, and frightens if the board has blue time. */
    function Energized(blue: u16): Ghost {
      if blue == 0 then Reversed() else Reversed().Frightened()
    }
  }

  const G_RING: byte := 87
  const G_QUOTE: byte := 34

  /** How long everyone else stands still when a ghost is eaten. */
  const GULP: byte := 30

  function GhostGlyph(k: nat): byte {
    if k == 1 then 2 + 128 else if k == 2 then 16 + 128 else if k == 3 then 9 + 128 else 19 + 128
  }

  /** Turned about: a ghost that is normal (1) or frightened (2) heads the other
      way and will decide afresh; nothing else changes, and no other ghost. */
  predicate TurnedRound(g: Ghost, h: Ghost) {
    if g.state == 1 || g.state == 2 then
      && g.a.dir < 4 && h.a.dir < 4 && DX(h.a.dir) == -DX(g.a.dir) && DY(h.a.dir) == -DY(g.a.dir)
      && h == g.(a := g.a.(dir := h.a.dir), latch := (255, g.latch.1))
    else h == g
  }

  /** Met by an energizer: turned about, and frightened where there is blue time. */
  predicate Startled(g: Ghost, h: Ghost, blue: u16) {
    if g.state == 1 || g.state == 2 then
      && g.a.dir < 4 && h.a.dir < 4 && DX(h.a.dir) == -DX(g.a.dir) && DY(h.a.dir) == -DY(g.a.dir)
      && h.state == (if blue > 0 then 2 else g.state)
      && h.a.glyph == (if blue > 0 && g.state == 1 then 215 else g.a.glyph)
      && h == g.(a := g.a.(dir := h.a.dir, glyph := h.a.glyph), state := h.state, latch := (255, g.latch.1))
    else h == g
  }

  /** A jiffy with so much blue time left: the frightened show ring (87) and
      reversed ring (215) sixteen jiffies each inside the window, and at the end
      ghost k is normal again under its own initial, reversed. */
  predicate BlueJiffy(k: nat, frite: u16, window: byte, g: Ghost, h: Ghost) {
    if g.state == 2 && frite == 1 then
      h == g.(state := 1, a := g.a.(rev := 1, glyph := match k case 1 => 130 case 2 => 144 case 3 => 137 case _ => 147))
    else if g.state == 2 && 1 < frite <= window + 1 then
      h == g.(a := g.a.(glyph := if (frite - 1) / 16 % 2 == 1 then 87 else 215))
    else h == g
  }

  lemma ReversedTurns(l: Layout, g: Ghost, blue: u16)
    requires l.Valid() && Out(l, g)
    ensures TurnedRound(g, g.Reversed()) && Startled(g, g.Energized(blue), blue)
  {
    hide Layout.Valid, Layout.Corridor, Layout.Step;
    if g.Roaming() {
      OppIsBack(g.a.dir, 0);
    }
  }

  /** In the same place. */
  predicate Stays(g: Ghost, h: Ghost) {
    h.a.x == g.a.x && h.a.y == g.a.y
  }

  lemma TurnedStays(g: Ghost, h: Ghost, k: nat, blue: u16, frite: u16, window: byte)
    ensures TurnedRound(g, h) || Startled(g, h, blue) || BlueJiffy(k, frite, window, g, h) ==> Stays(g, h)
  {
  }

  lemma CountedDownIs(g: Ghost, k: nat, frite: u16, window: byte)
    requires 1 <= k <= 4
    ensures BlueJiffy(k, frite, window, g, g.CountedDown(k, frite, window))
  {
  }

  function Down(frite: u16): u16 {
    if frite == 0 then 0 else frite - 1
  }

  /** Its move: a roaming ghost ticks and remembers where it decided. */
  ghost predicate Stalks(dots: seq<byte>, g: Ghost, s: Sight, spd: byte, b: Ghost) {
    if g.Roaming() then
      && b.state == g.state && Ticked(dots, g.a, g.latch, g.state, s, spd, b.a)
      && b.latch == if g.a.Centred() then (g.a.x, g.a.y) else g.latch
    else b == g
  }

  /** A whole jiffy: turned by an energizer, counted down, its move, and turned at
      a schedule edge. */
  ghost predicate Hunts(dots: seq<byte>, g: Ghost, k: nat, energizer: bool, blue: u16, frite: u16, window: byte,
                        s: Sight, spd: byte, turned: bool, b: Ghost) {
    exists f: Ghost, h: Ghost, c: Ghost ::
      Stages(dots, g, f, h, c, k, energizer, blue, frite, window, s, spd, turned, b)
  }

  ghost predicate Stages(dots: seq<byte>, g: Ghost, f: Ghost, h: Ghost, c: Ghost, k: nat, energizer: bool, blue: u16,
                         frite: u16, window: byte, s: Sight, spd: byte, turned: bool, b: Ghost) {
    && (if energizer then Startled(g, f, blue) else f == g)
    && BlueJiffy(k, if energizer then blue else frite, window, f, h) && Stalks(dots, h, s, spd, c)
    && if turned then TurnedRound(c, b) else b == c
  }

  /** Between two centres an energizer or a schedule edge, but not both, turns a
      ghost about, and nothing else does; at a centre it decides, and never back
      the way it came. */
  ghost predicate Turns(g: Ghost, energizer: bool, turned: bool, b: Ghost) {
    && (b.state == 1 || b.state == 2) && g.a.dir < 4 && b.a.dir < 4
    && (g.a.x % 2 == 1 || g.a.y % 2 == 1 ==>
          (DX(b.a.dir), DY(b.a.dir)) ==
          if energizer == turned then (DX(g.a.dir), DY(g.a.dir)) else (-DX(g.a.dir), -DY(g.a.dir)))
    && (DX(b.a.dir), DY(b.a.dir)) !=
       if energizer == turned then (-DX(g.a.dir), -DY(g.a.dir)) else (DX(g.a.dir), DY(g.a.dir))
  }

  lemma HuntsTurns(dots: seq<byte>, g: Ghost, k: nat, energizer: bool, blue: u16, frite: u16, window: byte, s: Sight,
                   spd: byte, turned: bool, b: Ghost)
    requires Hunts(dots, g, k, energizer, blue, frite, window, s, spd, turned, b)
    requires (g.state == 1 || g.state == 2) && g.a.dir < 4
    ensures Turns(g, energizer, turned, b)
  {
    var f: Ghost, h: Ghost, c: Ghost :|
      Stages(dots, g, f, h, c, k, energizer, blue, frite, window, s, spd, turned, b);
    assert h.a.dir == f.a.dir && h.a.x == g.a.x && h.a.y == g.a.y && (h.state == 1 || h.state == 2);
    assert !energizer ==> f == g;
    StalksOn(dots, h, s, spd, c);
    OppIsBack(h.a.dir, c.a.dir);
    hide Stalks, DX, DY, Opp;
  }

  lemma StalksOn(dots: seq<byte>, g: Ghost, s: Sight, spd: byte, b: Ghost)
    requires Stalks(dots, g, s, spd, b) && g.Roaming()
    ensures b.state == g.state && b.a.dir < DIR_NONE && b.a.dir != Opp(g.a.dir)
    ensures g.a.x % 2 == 1 || g.a.y % 2 == 1 ==> b.a.dir == g.a.dir
  {
    hide Decided, Candidates, Stepped, DY, Opp;
  }

  lemma FrozenOut(l: Layout, g: Ghost)
    requires l.Valid() && Out(l, g)
    ensures Out(l, g.Frozen())
  {
    hide Layout.Valid, Roams;
    if g.Roaming() {
      SameRoams(l, g.a, g.Frozen().a, g.latch);
    }
  }

  lemma BracedOut(l: Layout, g: Ghost, k: nat, frite: u16, window: byte)
    requires l.Valid() && Out(l, g)
    ensures Out(l, g.CountedDown(k, frite, window)) && Out(l, g.Frightened())
  {
    hide Layout.Valid, Roams;
    if g.Roaming() {
      SameRoams(l, g.a, g.CountedDown(k, frite, window).a, g.latch);
      SameRoams(l, g.a, g.Frightened().a, g.latch);
    }
  }

  /** Every ghost is on the map, a normal or frightened one out in the corridors. */
  ghost predicate Out(l: Layout, g: Ghost)
    requires l.Valid()
  {
    g.a.x <= 54 && g.a.y <= 48 && (g.Roaming() ==> Roams(l, g.a, g.latch))
  }

  lemma OutOnMap(l: Layout, g: Ghost)
    requires l.Valid() && Out(l, g)
    ensures g.a.x <= 54 && g.a.y <= 48 && (g.Roaming() ==> g.a.dir < DIR_NONE)
  {
  }

  lemma OutRoams(l: Layout, g: Ghost)
    requires l.Valid() && g.Roaming()
    ensures Out(l, g) <==> Roams(l, g.a, g.latch)
  {
  }

  /** The cells above the door, where ghosts join, are corridor. */
  lemma DoorstepIsCorridor(l: Layout, target: int, tolerance: int)
    requires Accepted(l, target, tolerance)
    ensures l.Valid() && l.Corridor((13, 9)) && l.Corridor((14, 9))
  {
    HouseWalls(l, target, tolerance);
  }

  /** Joining the fray: at a centre above the door or straddling it, heading
      left, with no decision latched there. */
  lemma JoinsRoaming(l: Layout, target: int, tolerance: int, a: Actor, latch: (byte, byte))
    requires Accepted(l, target, tolerance) && 26 <= a.x <= 28 && a.y == 18 && a.dir == LEFT && a.hid == 0
    requires latch != (a.x, a.y) && latch != (a.x - 1, a.y)
    ensures l.Valid() && Roams(l, a, latch)
  {
    hide Accepted, Layout.Valid, Layout.Corridor, Layout.Step;
    DoorstepIsCorridor(l, target, tolerance);
    assert a.x == 26 || a.x == 27 || a.x == 28;
  }

  lemma ReversedOut(l: Layout, g: Ghost)
    requires l.Valid() && Out(l, g)
    ensures Out(l, g.Reversed())
  {
    hide Layout.Valid, Roams;
    if g.Roaming() {
      ReverseRoams(l, g.a, g.latch);
    }
  }

  lemma HomeboundOut(l: Layout, g: Ghost)
    requires l.Valid() && !g.Roaming() && g.a.x <= 54 && g.a.y <= 48
    ensures Out(l, g)
  {
  }

  function HomeX(k: nat): byte {
    if k == 2 then 27 else if k == 3 then 24 else 30
  }

  const GSPD_NORM: byte := 0x3C

  function Housed(k: nat): Ghost {
    Ghost(Actor(HomeX(k), 22, DIR_NONE, GSPD_NORM, 0, GhostGlyph(k), 1, 0, 0, 0, 0, 0).Drawn(), HOUSED, (0xFF, 0xFF))
  }

  lemma StartsOut(l: Layout, bruiser: Actor)
    requires l.Valid() && Roams(l, bruiser, (0xFF, 0xFF))
    ensures Out(l, Ghost(bruiser, NORM, (0xFF, 0xFF)))
    ensures forall k | 2 <= k <= 4 :: Out(l, Housed(k))
    ensures OnSchedule(0, FIRST % 0x100, FIRST / 0x100, 0, [])
  {
  }

  predicate Glances(glances: seq<Glance>) {
    |glances| == 5 && forall k | 1 <= k <= 4 :: glances[k].Valid()
  }

  datatype Event =
    | Jiffy(dots: seq<byte>, energizer: bool, blue: u16, window: byte, glances: seq<Glance>, spds: seq<byte>)
    | Eaten(k: nat)
    | Released(k: nat, x: byte, y: byte)
    | Elsewhere(k: nat, g: Ghost)
  {
    ghost predicate Fair(l: Layout, target: int, tolerance: int) {
      match this
      case Jiffy(dots, _, _, _, glances, spds) => Board(l, target, tolerance, dots) && Glances(glances) && |spds| == 5
      case Released(_, x, y) => Accepted(l, target, tolerance) && (x == 26 || x == 28) && y == 18
      case Elsewhere(_, g) => g.a.x <= 54 && g.a.y <= 48
      case _ => true
    }

    /** The blue time it leaves. */
    function Blue(frite: u16): u16 {
      if Jiffy? then Down(if energizer then blue else frite) else frite
    }
  }

  /** The jiffies of a script that fall outside blue time. */
  function ClearJiffies(script: seq<Event>, frite: u16): nat {
    if script == [] then 0
    else
      var left := script[0].Blue(frite);
      (if script[0].Jiffy? && left == 0 then 1 else 0) + ClearJiffies(script[1..], left)
  }

  /** Let out above the door, heading left. */
  function LetOut(g: Ghost, x: byte, y: byte): Ghost {
    Ghost(g.a.(x := x, y := y, dir := LEFT, hid := 0), NORM, g.latch)
  }

  /** The pack when ghost k is eaten: it is caught and the others freeze. */
  function Gulped(pack: seq<Ghost>, k: nat): seq<Ghost> {
    seq(|pack|, j requires 0 <= j < |pack| =>
      if j == k then pack[j].Caught() else if j == 0 then pack[j] else pack[j].Frozen())
  }

  /** The pack, the blue time and the clock at one moment. */
  datatype Night = Night(pack: seq<Ghost>, frite: u16, clock: nat)

  predicate Reverses(clock: int) {
    clock == 421 || clock == 1622 || clock == 1923
  }

  /** The schedule's state at a clock: scatter (0), chase (1), scatter (2), chase. */
  function Phase(clock: nat): byte {
    if clock < 421 then 0 else if clock < 1622 then 1 else if clock < 1923 then 2 else 3
  }

  /** One event: a jiffy is a jiffy of each ghost, deciding by the clock's phase and
      turned at the schedule's edges, Ivy by where Bruiser has just gone; whatever
      else happens to one ghost leaves blue time and clock. */
  ghost predicate Passes(e: Event, x: Night, y: Night) {
    && |x.pack| == |y.pack| == 5
    && match e
       case Jiffy(dots, energizer, blue, window, glances, spds) =>
         && y.frite == Down(if energizer then blue else x.frite)
         && y.clock == x.clock + (if y.frite == 0 then 1 else 0)
         && |glances| == |spds| == 5
         && forall k | 1 <= k <= 4 ::
              Hunts(dots, x.pack[k], k, energizer, blue, x.frite, window,
                    glances[k].By(k, Phase(x.clock), if k == 1 then x.pack[1].a else y.pack[1].a), spds[k],
                    y.clock > x.clock && Reverses(y.clock), y.pack[k])
       case Eaten(k) =>
         && (y.frite, y.clock) == (x.frite, x.clock)
         && if 1 <= k <= 4 && x.pack[k].state == FRIGHT then Gulps(x.pack, k, y.pack) else y.pack == x.pack
       case Released(k, gx, gy) =>
         && (y.frite, y.clock) == (x.frite, x.clock)
         && if 1 <= k <= 4 && x.pack[k].latch != (gx, gy) && x.pack[k].latch != (gx - 1, gy) then
              var g := x.pack[k];
              y.pack == x.pack[k := Ghost(g.a.(x := gx, y := gy, dir := LEFT, hid := 0), NORM, g.latch)]
            else y.pack == x.pack
       case Elsewhere(k, g) =>
         && (y.frite, y.clock) == (x.frite, x.clock)
         && y.pack == if 1 <= k <= 4 && !x.pack[k].Roaming() && !g.Roaming() then x.pack[k := g] else x.pack
  }

  /** Ghost k eaten: it is eyes (3) on their way, and for half a second no other
      moves. */
  predicate Gulps(was: seq<Ghost>, k: nat, now: seq<Ghost>) {
    && k < |was| == |now| == 5 && now[0] == was[0]
    && (forall j | 1 <= j <= 4 && j != k :: now[j] == was[j].(a := was[j].a.(pause := 30)))
    && now[k] == was[k].(state := 3, a := was[k].a.(glyph := 34, rev := 0, pause := 0))
  }

  lemma GulpedIs(pack: seq<Ghost>, k: nat)
    requires |pack| == 5 && 1 <= k <= 4
    ensures Gulps(pack, k, Gulped(pack, k))
  {
  }

  ghost predicate Nights(script: seq<Event>, nights: seq<Night>) {
    && |nights| == |script| + 1
    && forall i | 0 <= i < |script| :: Passes(script[i], nights[i], nights[i + 1])
  }

  lemma NightsMore(script: seq<Event>, nights: seq<Night>, n: nat, y: Night)
    requires n < |script| && Nights(script[..n], nights) && Passes(script[n], nights[n], y)
    ensures Nights(script[..n + 1], nights + [y])
  {
    hide Passes;
    assert script[..n + 1] == script[..n] + [script[n]];
  }

  class Ghosts {
    const pack: array<Ghost>
    var schedState: byte
    var schedLo: byte
    var schedHi: byte
    var frite: u16
    ghost var clock: nat
    ghost var revs: seq<nat>
    ghost const l: Layout
    ghost const target: int
    ghost const tolerance: int

    ghost predicate Haunts()
      reads pack
    {
      pack.Length == 5 && l.Valid() && forall k | 1 <= k <= 4 :: Out(l, pack[k])
    }

    ghost predicate Valid()
      reads this, pack
    {
      Haunts() && OnSchedule(schedState, schedLo, schedHi, clock, revs)
    }

    /** One ghost's jiffy: decide once per centre, then step. */
    method GhostTick(k: nat, dots: seq<byte>, s: Sight, spd: byte)
      requires Haunts() && Board(l, target, tolerance, dots) && 1 <= k <= 4 && pack[k].Roaming() && s.Valid()
      requires s.k == k
      modifies pack
      ensures Haunts() && pack[..] == old(pack[..])[k := pack[k]]
      ensures var g := old(pack[k]);
              Stalks(dots, g, s, spd, pack[k])
    {
      hide Roams, Board, Ticked, Layout.Valid, Out;
      var g := pack[k];
      OutRoams(l, g);
      var b, latch := Tick(l, target, tolerance, dots, g.a, g.latch, g.state, s, spd);
      OutRoams(l, Ghost(b, g.state, latch));
      pack[k] := Ghost(b, g.state, latch);
      assert pack[..] == old(pack[..])[k := pack[k]];
    }

    /** Every active ghost reverses. */
    method RevAll()
      requires Haunts()
      modifies pack
      ensures Haunts() && forall k | 1 <= k <= 4 :: pack[k] == old(pack[k]).Reversed()
      ensures forall k | 1 <= k <= 4 :: TurnedRound(old(pack[k]), pack[k])
    {
      hide Out, Layout.Valid, TurnedRound, Startled;
      for k := 1 to 5
        invariant Haunts()
        invariant forall j | 1 <= j < k :: pack[j] == old(pack[j]).Reversed() && TurnedRound(old(pack[j]), pack[j])
        invariant forall j | k <= j <= 4 :: pack[j] == old(pack[j])
      {
        ReversedOut(l, pack[k]);
        ReversedTurns(l, pack[k], 0);
        pack[k] := pack[k].Reversed();
      }
    }

    /** An energizer: reverse everyone, then blue time if the board has any. */
    method FrightOn(blue: u16)
      requires Haunts()
      modifies pack, `frite
      ensures Haunts() && frite == blue
      ensures forall k | 1 <= k <= 4 :: Startled(old(pack[k]), pack[k], blue)
    {
      hide Layout.Valid, Out, Ghost.Frightened, Ghost.Reversed, TurnedRound, Startled;
      forall k | 1 <= k <= 4 ensures Startled(pack[k], pack[k].Energized(blue), blue) {
        ReversedTurns(l, pack[k], blue);
      }
      RevAll();
      frite := blue;
      if blue != 0 {
        for k := 1 to 5
          invariant Haunts() && frite == blue
          invariant forall j | 1 <= j < k :: pack[j] == old(pack[j]).Reversed().Frightened()
          invariant forall j | k <= j <= 4 :: pack[j] == old(pack[j]).Reversed()
        {
          BracedOut(l, pack[k], k, 0, 0);
          pack[k] := pack[k].Frightened();
        }
      }
    }

    /** The blue countdown: the frightened flash in its last window, and are
        normal again at its end. */
    method FrightTick(window: byte)
      requires Haunts()
      modifies pack, `frite
      ensures Haunts() && frite == Down(old(frite))
      ensures forall k | 1 <= k <= 4 :: BlueJiffy(k, old(frite), window, old(pack[k]), pack[k])
    {
      hide Layout.Valid, Out, Ghost.Flashed, Ghost.Recovered, BlueJiffy;
      forall k | 1 <= k <= 4
        ensures BlueJiffy(k, frite, window, pack[k], pack[k].CountedDown(k, frite, window))
      {
        CountedDownIs(pack[k], k, frite, window);
      }
      if frite == 0 {
        return;
      }
      frite := frite - 1;
      if frite == 0 || frite <= window {
        for k := 1 to 5
          invariant Haunts() && frite == old(frite) - 1
          invariant forall j | 1 <= j < k :: pack[j] == old(pack[j]).CountedDown(j, old(frite), window)
          invariant forall j | k <= j <= 4 :: pack[j] == old(pack[j])
        {
          BracedOut(l, pack[k], k, frite + 1, window);
          pack[k] := if frite == 0 then pack[k].Recovered(k) else pack[k].Flashed(frite);
        }
      }
    }

    /** The scatter and chase clock, stopped in blue time. */
    method SchedTick()
      requires Valid()
      modifies this, pack
      ensures Valid() && clock == old(clock) + (if frite == 0 then 1 else 0) && frite == old(frite)
      ensures schedState >= old(schedState) && (old(schedState) == 3 ==> revs == old(revs))
      ensures forall k | 1 <= k <= 4 ::
                if revs == old(revs) then pack[k] == old(pack[k]) else TurnedRound(old(pack[k]), pack[k])
      ensures revs == old(revs) || revs == old(revs) + [clock]
    {
      hide Out, Layout.Valid;
      if frite != 0 {
        return;
      }
      clock := clock + 1;
      if schedState == 3 {
        if schedLo != 0 || schedHi != 0 {
          schedLo := (schedLo - 1) % 0x100;
          return;
        }
      } else {
        if schedLo != 0 {
          schedLo := schedLo - 1;
          return;
        }
        if schedHi != 0 {
          schedHi := schedHi - 1;
          schedLo := 0xFF;
          return;
        }
      }
      schedState := schedState + 1;
      if schedState == 4 {
        // the clamp back to 3: the last timer never expires
        assert false;
      }
      var reload := if schedState == 1 then SECOND else if schedState == 2 then THIRD else 61200;
      schedLo, schedHi := reload % 0x100, reload / 0x100;
      revs := revs + [clock];
      RevAll();
    }

    /** Board start: Bruiser above the door heading left, the others housed. */
    constructor (ghost maze: Layout, ghost dotTarget: int, ghost dotTolerance: int)
      requires Accepted(maze, dotTarget, dotTolerance)
      ensures Valid() && clock == 0 && revs == [] && frite == 0 && l == maze && target == dotTarget
      ensures tolerance == dotTolerance
      ensures pack[1] == Ghost(Actor(27, 18, LEFT, 60, 0, 130, 1, 0, 0, 27, 18, 2), NORM, (255, 255))
      ensures pack[2] == Ghost(Actor(27, 22, DIR_NONE, 60, 0, 144, 1, 0, 0, 27, 22, 2), HOUSED, (255, 255))
      ensures pack[3] == Ghost(Actor(24, 22, DIR_NONE, 60, 0, 137, 1, 0, 0, 24, 22, 1), HOUSED, (255, 255))
      ensures pack[4] == Ghost(Actor(30, 22, DIR_NONE, 60, 0, 147, 1, 0, 0, 30, 22, 1), HOUSED, (255, 255))
    {
      hide Accepted, Layout.Valid, Roams, Out, Ghost.Roaming, OnSchedule;
      var bruiser := Actor(27, 18, LEFT, GSPD_NORM, 0, GhostGlyph(1), 1, 0, 0, 0, 0, 0).Drawn();
      JoinsRoaming(maze, dotTarget, dotTolerance, bruiser, (0xFF, 0xFF));
      pack := new Ghost[5](k requires 0 <= k < 5 => Housed(k));
      schedState, schedLo, schedHi := 0, FIRST % 0x100, FIRST / 0x100;
      frite, clock, revs := 0, 0, [];
      l, target, tolerance := maze, dotTarget, dotTolerance;
      new;
      StartsOut(l, bruiser);
      pack[1] := Ghost(bruiser, NORM, (0xFF, 0xFF));
    }

    // ---------- whole games ----------

    /** One jiffy of ghosts_tick for the ghosts that are out: what becomes of
        each, and of the clock.  Nobody turns back but for an energizer or a
        logged reversal. */
    method Jiffy(dots: seq<byte>, energizer: bool, blue: u16, window: byte, glances: seq<Glance>, spds: seq<byte>)
      requires Valid() && Board(l, target, tolerance, dots) && Glances(glances) && |spds| == 5
      modifies this, pack
      ensures Valid() && frite == Down(if energizer then blue else old(frite))
      ensures clock == old(clock) + (if frite == 0 then 1 else 0)
      ensures revs == old(revs) || revs == old(revs) + [clock]
      ensures forall k | 1 <= k <= 4 ::
                Hunts(dots, old(pack[k]), k, energizer, blue, old(frite), window,
                      glances[k].By(k, old(schedState), if k == 1 then old(pack[1]).a else pack[1].a), spds[k],
                      revs != old(revs), pack[k])
      ensures forall k | 1 <= k <= 4 && old(pack[k]).Roaming() ::
                Turns(old(pack[k]), energizer, revs != old(revs), pack[k])
    {
      hide Out, Board, Layout.Valid, Stalks, OnSchedule, Ghost.Roaming, Startled, BlueJiffy, TurnedRound;
      forall k | 1 <= k <= 4
        ensures pack[k].Roaming() ==> (pack[k].state == 1 || pack[k].state == 2) && pack[k].a.dir < 4
      {
        OutOnMap(l, pack[k]);
        RoamingIs(pack[k]);
      }
      if energizer {
        FrightOn(blue);
      }
      ghost var startled := pack[..];
      FrightTick(window);
      ghost var braced := pack[..];
      ghost var sights := Prowl(dots, glances, spds);
      ghost var stalked := pack[..];
      SchedTick();
      TurnedStays(stalked[1], pack[1], 1, 0, 0, 0);
      TurnedStays(old(pack[1]), startled[1], 1, blue, 0, 0);
      TurnedStays(startled[1], braced[1], 1, 0, if energizer then blue else old(frite), window);
      forall k | 1 <= k <= 4
        ensures Hunts(dots, old(pack[k]), k, energizer, blue, old(frite), window,
                      glances[k].By(k, old(schedState), if k == 1 then old(pack[1]).a else pack[1].a), spds[k],
                      revs != old(revs), pack[k])
      {
        assert sights[k] == glances[k].By(k, old(schedState), if k == 1 then old(pack[1]).a else pack[1].a);
        assert Stages(dots, old(pack[k]), startled[k], braced[k], stalked[k], k, energizer, blue, old(frite), window,
                      sights[k], spds[k], revs != old(revs), pack[k]);
      }
      forall k | 1 <= k <= 4 && old(pack[k]).Roaming()
        ensures Turns(old(pack[k]), energizer, revs != old(revs), pack[k])
      {
        HuntsTurns(dots, old(pack[k]), k, energizer, blue, old(frite), window,
                   glances[k].By(k, old(schedState), if k == 1 then old(pack[1]).a else pack[1].a), spds[k],
                   revs != old(revs), pack[k]);
      }
    }

    /** Every ghost that is out moves, Bruiser first. */
    method Prowl(dots: seq<byte>, glances: seq<Glance>, spds: seq<byte>) returns (ghost sights: seq<Sight>)
      requires Valid() && Board(l, target, tolerance, dots) && Glances(glances) && |spds| == 5
      modifies pack
      ensures Valid() && |sights| == 5
      ensures forall k | 1 <= k <= 4 ::
                && sights[k] == glances[k].By(k, schedState, if k == 1 then old(pack[1]).a else pack[1].a)
                && Stalks(dots, old(pack[k]), sights[k], spds[k], pack[k])
    {
      hide Out, Board, Layout.Valid, Stalks, OnSchedule;
      var first := glances[1].By(1, schedState, pack[1].a);
      sights := [first, first];
      for k := 1 to 5
        invariant Valid() && |sights| == k + (if k == 1 then 1 else 0)
        invariant forall j | 1 <= j < k ::
                    && sights[j] == glances[j].By(j, schedState, if j == 1 then old(pack[1]).a else pack[1].a)
                    && Stalks(dots, old(pack[j]), sights[j], spds[j], pack[j])
        invariant forall j | k <= j <= 4 :: pack[j] == old(pack[j])
      {
        OutOnMap(l, pack[1]);
        var s := glances[k].By(k, schedState, pack[1].a);
        StalksStill(dots, pack[k], s, spds[k]);
        if pack[k].Roaming() {
          GhostTick(k, dots, s, spds[k]);
        }
        sights := sights[..k] + [s];
      }
    }

    ghost function Now(): Night
      reads this, pack
    {
      Night(pack[..], frite, clock)
    }

    /** Anything that happens to the ghosts: a jiffy, a frightened ghost eaten,
        a ghost let out above the door, or whatever a ghost in the house or
        flying home does. */
    method Happen(e: Event)
      requires Valid() && e.Fair(l, target, tolerance)
      modifies this, pack
      ensures Valid() && Passes(e, old(Now()), Now())
    {
      hide Out, Board, Layout.Valid, OnSchedule, Accepted, Roams, Hunts, Gulps, Turns;
      match e
      case Jiffy(dots, energizer, blue, window, glances, spds) =>
        ghost var x, lo, hi, state, was := Now(), schedLo, schedHi, schedState, revs;
        ScheduleByClock(state, lo, hi, x.clock, was);
        Jiffy(dots, energizer, blue, window, glances, spds);
        TurnsBySchedule(state, lo, hi, x.clock, was, schedState, schedLo, schedHi, clock, revs);
      case Eaten(k) =>
        if 1 <= k <= 4 && pack[k].state == FRIGHT {
          Gulp(k);
        }
      case Released(k, x, y) =>
        if 1 <= k <= 4 && pack[k].latch != (x, y) && pack[k].latch != (x - 1, y) {
          var g := LetOut(pack[k], x, y);
          JoinsRoaming(l, target, tolerance, g.a, g.latch);
          OutRoams(l, g);
          Become(k, g);
        }
      case Elsewhere(k, g) =>
        if 1 <= k <= 4 && !pack[k].Roaming() && !g.Roaming() {
          HomeboundOut(l, g);
          Become(k, g);
        }
    }

    /** Ghost k is eaten. */
    method Gulp(k: nat)
      requires Haunts() && 1 <= k <= 4
      modifies pack
      ensures Haunts() && Gulps(old(pack[..]), k, pack[..])
    {
      hide Out, Layout.Valid, Gulps;
      GulpedIs(pack[..], k);
      for j := 1 to 5
        invariant Haunts()
        invariant forall i | 1 <= i < j :: pack[i] == old(pack[i]).Frozen()
        invariant forall i | j <= i <= 4 :: pack[i] == old(pack[i])
        invariant pack[0] == old(pack[0])
      {
        FrozenOut(l, pack[j]);
        pack[j] := pack[j].Frozen();
      }
      OutOnMap(l, pack[k]);
      var g := pack[k].Caught();
      assert g == old(pack[k]).Caught();
      HomeboundOut(l, g);
      pack[k] := g;
      assert pack[..] == Gulped(old(pack[..]), k);
    }

    method Become(k: nat, g: Ghost)
      requires Haunts() && 1 <= k <= 4 && Out(l, g)
      modifies pack
      ensures Haunts() && pack[..] == old(pack[..])[k := g]
    {
      hide Out;
      pack[k] := g;
      assert pack[..] == old(pack[..])[k := g];
    }

    /** In every run no roaming ghost leaves the corridors; the clock counts the
        jiffies outside blue time, and the schedule reverses at its three of
        them and never after. */
    method Run(script: seq<Event>) returns (ghost nights: seq<Night>)
      requires Valid() && forall e | e in script :: e.Fair(l, target, tolerance)
      modifies this, pack
      ensures Valid() && Nights(script, nights) && nights[0] == old(Now()) && nights[|script|] == Now()
      ensures clock == old(clock) + ClearJiffies(script, old(frite))
      ensures forall k | 1 <= k <= 4 && pack[k].Roaming() ::
              l.Corridor(pack[k].a.Cell()) && l.Corridor(pack[k].a.Partner())
      ensures forall n :: n in revs <==> Reverses(n) && n <= clock
    {
      nights := [Now()];
      for i := 0 to |script|
        invariant Valid() && |nights| == i + 1 && nights[0] == old(Now()) && nights[i] == Now()
        invariant Nights(script[..i], nights)
        invariant clock + ClearJiffies(script[i..], frite) == old(clock) + ClearJiffies(script, old(frite))
      {
        hide Out, Layout.Valid, OnSchedule, Event.Fair, Nights;
        assert script[i] in script && script[i..][1..] == script[i + 1..] && script[i..][0] == script[i];
        ghost var x := Now();
        Happen(script[i]);
        PassesCounts(script[i], x, Now());
        hide Passes, Event.Blue;
        NightsMore(script, nights, i, Now());
        nights := nights + [Now()];
      }
      assert script[..|script|] == script;
      assert forall k | 1 <= k <= 4 :: Out(l, pack[k]);
      ScheduleByClock(schedState, schedLo, schedHi, clock, revs);
    }
  }

  lemma PassesCounts(e: Event, x: Night, y: Night)
    requires Passes(e, x, y)
    ensures y.frite == e.Blue(x.frite) && y.clock == x.clock + (if e.Jiffy? && y.frite == 0 then 1 else 0)
  {
  }

  /** A reversal is logged exactly when the clock reaches an edge. */
  lemma TurnsBySchedule(state: byte, lo: byte, hi: byte, clock: nat, revs: seq<nat>,
                        state': byte, lo': byte, hi': byte, clock': nat, revs': seq<nat>)
    requires OnSchedule(state, lo, hi, clock, revs) && OnSchedule(state', lo', hi', clock', revs')
    requires clock' == clock || clock' == clock + 1
    requires revs' == revs || revs' == revs + [clock']
    ensures revs' != revs <==> clock' > clock && Reverses(clock')
  {
    ScheduleByClock(state, lo, hi, clock, revs);
    ScheduleByClock(state', lo', hi', clock', revs');
    if revs' == revs + [clock'] {
      assert clock' in revs';
      assert |revs'| != |revs|;
      if clock' == clock {
        OneEntry(state, lo, hi, clock, revs);
        OneEntry(state', lo', hi', clock', revs');
      }
    }
    if clock' > clock && Reverses(clock') {
      assert clock' in revs' && clock' !in revs;
    }
  }

  lemma OneEntry(state: byte, lo: byte, hi: byte, clock: nat, revs: seq<nat>)
    requires OnSchedule(state, lo, hi, clock, revs)
    ensures |revs| == if clock < 421 then 0 else if clock < 1622 then 1 else if clock < 1923 then 2 else 3
  {
    ScheduleByClock(state, lo, hi, clock, revs);
  }

  lemma RoamingIs(g: Ghost)
    ensures g.Roaming() <==> g.state == 1 || g.state == 2
  {
  }

  /** A ghost that is not out stays put. */
  lemma StalksStill(dots: seq<byte>, g: Ghost, s: Sight, spd: byte)
    ensures !g.Roaming() ==> Stalks(dots, g, s, spd, g)
  {
  }
}
