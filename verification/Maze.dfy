/** The maze maps: their vocabulary, the neighbour relation, and the validator
    whose acceptance the game relies on. */
module Maze {
  import opened Wrappers

  const W := 28
  const H := 25

  const OPEN := 0
  const DOT := 1
  const ENERGIZER := 2
  const WALL := 3

  type Cell = (int, int)

  predicate InMaze(c: Cell) {
    0 <= c.0 < W && 0 <= c.1 < H
  }

  // Fixed geometry, the same in every maze.
  predicate Door(c: Cell) {
    c == (13, 10) || c == (14, 10)
  }

  predicate Interior(c: Cell) {
    12 <= c.0 <= 15 && c.1 == 11
  }

  predicate GhostOnly(c: Cell) {
    Door(c) || Interior(c)
  }

  const START: Cell := (13, 19)

  // Directions in the order the game numbers them.
  type Dir = d: int | 0 <= d < 4
  const UP: Dir := 0
  const LEFT: Dir := 1
  const DOWN: Dir := 2
  const RIGHT: Dir := 3

  function DX(d: Dir): int {
    if d == LEFT then -1 else if d == RIGHT then 1 else 0
  }

  function DY(d: Dir): int {
    if d == UP then -1 else if d == DOWN then 1 else 0
  }

  function Opposite(d: Dir): Dir {
    (d + 2) % 4
  }

  /** The four directions are the four unit steps, and opposites cancel. */
  lemma OppositeTurns(d: Dir)
    ensures DX(Opposite(d)) == -DX(d) && DY(Opposite(d)) == -DY(d)
    ensures (DX(d), DY(d)) == match d case 0 => (0, -1) case 1 => (-1, 0) case 2 => (0, 1) case 3 => (1, 0)
  {
  }

  // ---------- the map text ----------

  predicate Vocabulary(c: char) {
    c == '#' || c == '.' || c == 'O' || c == ' ' || c == '=' || c == 'T'
  }

  function CodeOf(c: char): int {
    if c == '#' then WALL else if c == '.' then DOT else if c == 'O' then ENERGIZER else OPEN
  }

  /** Rows as wide and as many as a maze, in the map vocabulary. */
  predicate Shaped(rows: seq<string>) {
    |rows| == H && forall r | r in rows :: |r| == W && forall c | c in r :: Vocabulary(c)
  }

  /** A map and the rows declared to be tunnels. */
  datatype Layout = Layout(rows: seq<string>, tunnels: seq<nat>) {
    predicate Valid() {
      Shaped(rows) && forall y | y in tunnels :: y < H
    }

    function At(c: Cell): char
      requires Valid() && InMaze(c)
    {
      assert rows[c.1] in rows;
      rows[c.1][c.0]
    }

    function Code(c: Cell): (k: int)
      requires Valid() && InMaze(c)
      ensures 0 <= k <= 3
    {
      CodeOf(At(c))
    }

    predicate Corridor(c: Cell)
      requires Valid()
    {
      InMaze(c) && Code(c) != WALL && !GhostOnly(c)
    }

    /** The cell one step away that can be entered without the house, through
        the tunnel where a declared tunnel row leaves the map sideways. */
    function Step(c: Cell, d: Dir): Option<Cell>
      requires Valid()
    {
      var n := (c.0 + DX(d), c.1 + DY(d));
      if n.0 < 0 || n.0 >= W then
        if c.1 in tunnels && n.1 == c.1 then Some(((n.0 + W) % W, c.1)) else None
      else if 0 <= n.1 < H && Code(n) != WALL && !GhostOnly(n) then Some(n)
      else None
    }

    function OpenNeighbours(c: Cell): seq<Cell>
      requires Valid()
    {
      Opt(Step(c, UP)) + Opt(Step(c, LEFT)) + Opt(Step(c, DOWN)) + Opt(Step(c, RIGHT))
    }
  }

  /** The map's characters in numbers: dot, energizer, wall and the rest. */
  lemma CodeMeaning(l: Layout, x: nat, y: nat)
    requires l.Valid() && x < 28 && y < 25
    ensures |l.rows[y]| == 28
    ensures l.Code((x, y)) == match l.rows[y][x] case '.' => 1 case 'O' => 2 case '#' => 3 case _ => 0
  {
    assert l.rows[y] in l.rows;
  }

  /** One step up, left, down or right: into any cell that is no wall and not the
      house or its door, and sideways off a tunnel row to the far side. */
  lemma StepMeaning(l: Layout, x: nat, y: nat, d: Dir)
    requires l.Valid() && x < 28 && y < 25
    ensures var (dx, dy) := match d case 0 => (0, -1) case 1 => (-1, 0) case 2 => (0, 1) case 3 => (1, 0);
            var (nx, ny) := (x + dx, y + dy);
            l.Step((x, y), d) ==
            if nx < 0 || nx > 27 then (if y in l.tunnels then Some((27 - x, y)) else None)
            else if ny < 0 || ny > 24 || l.Code((nx, ny)) == 3 then None
            else if (ny == 10 && 13 <= nx <= 14) || (ny == 11 && 12 <= nx <= 15) then None
            else Some((nx, ny))
  {
    hide Layout.Code;
  }

  function Opt(c: Option<Cell>): seq<Cell> {
    if c.Some? then [c.value] else []
  }

  lemma NeighbourMeaning(l: Layout, c: Cell)
    requires l.Valid()
    ensures forall n :: n in l.OpenNeighbours(c) <==> exists d: Dir :: l.Step(c, d) == Some(n)
  {
    forall n
      ensures n in l.OpenNeighbours(c) <==> exists d: Dir :: l.Step(c, d) == Some(n)
    {
      if n in l.OpenNeighbours(c) {
        assert l.Step(c, UP) == Some(n) || l.Step(c, LEFT) == Some(n) || l.Step(c, DOWN) == Some(n)
               || l.Step(c, RIGHT) == Some(n);
      }
      if d: Dir :| l.Step(c, d) == Some(n) {
        assert d == UP || d == LEFT || d == DOWN || d == RIGHT;
      }
    }
  }

  /** One entry for each direction that leads on. */
  lemma NeighbourCount(l: Layout, c: Cell)
    requires l.Valid()
    ensures |l.OpenNeighbours(c)| == (if l.Step(c, 0).Some? then 1 else 0) + (if l.Step(c, 1).Some? then 1 else 0)
                                     + (if l.Step(c, 2).Some? then 1 else 0) + (if l.Step(c, 3).Some? then 1 else 0)
  {
    hide Layout.Step, Layout.Valid;
  }

  lemma NeighbourInMaze(l: Layout, c: Cell, d: Dir)
    requires l.Valid() && InMaze(c) && l.Step(c, d).Some?
    ensures InMaze(l.Step(c, d).value)
  {
  }

  // ---------- reachability ----------

  /** A walk along open neighbours. */
  ghost predicate Path(l: Layout, p: seq<Cell>)
    requires l.Valid()
  {
    p != [] && forall i | 0 <= i < |p| - 1 :: p[i + 1] in l.OpenNeighbours(p[i])
  }

  ghost predicate Reachable(l: Layout, a: Cell, b: Cell)
    requires l.Valid()
  {
    exists p: seq<Cell> :: Path(l, p) && p[0] == a && p[|p| - 1] == b
  }

  lemma ReachableRefl(l: Layout, a: Cell)
    requires l.Valid()
    ensures Reachable(l, a, a)
  {
    assert Path(l, [a]);
  }

  lemma ReachableStep(l: Layout, a: Cell, b: Cell, c: Cell)
    requires l.Valid() && Reachable(l, a, b) && c in l.OpenNeighbours(b)
    ensures Reachable(l, a, c)
  {
    hide Layout.OpenNeighbours, Layout.Valid;
    var p: seq<Cell> :| Path(l, p) && p[0] == a && p[|p| - 1] == b;
    var q := p + [c];
    forall i | 0 <= i < |q| - 1 ensures q[i + 1] in l.OpenNeighbours(q[i]) {
      assert i < |p| - 1 ==> p[i + 1] in l.OpenNeighbours(p[i]);
    }
    assert Path(l, q) && q[0] == a && q[|q| - 1] == c;
  }

  lemma {:induction false} ClosedHoldsPath(l: Layout, s: set<Cell>, p: seq<Cell>)
    requires l.Valid() && Path(l, p) && p[0] in s
    requires forall c, n | c in s && n in l.OpenNeighbours(c) :: n in s
    ensures p[|p| - 1] in s
  {
    if |p| > 1 {
      ClosedHoldsPath(l, s, p[1..]);
    }
  }

  function Cells(): set<Cell> {
    set x, y | 0 <= x < W && 0 <= y < H :: (x, y)
  }

  function Unseen(cells: seq<Cell>, seen: set<Cell>): (u: seq<Cell>)
    ensures forall c :: c in u <==> c in cells && c !in seen
  {
    if cells == [] then []
    else if cells[0] in seen then Unseen(cells[1..], seen) else [cells[0]] + Unseen(cells[1..], seen)
  }

  /** The worklist: seen ends as exactly the cells reachable from start. */
  method Flood(l: Layout, start: Cell) returns (seen: set<Cell>)
    requires l.Valid() && InMaze(start)
    ensures forall c :: c in seen <==> Reachable(l, start, c)
  {
    hide Layout.OpenNeighbours, Layout.Valid, Reachable, Path, Unseen, Cells;
    seen := {};
    var frontier := [start];
    ReachableRefl(l, start);
    while frontier != []
      invariant seen <= Cells() && forall c | c in frontier :: InMaze(c)
      invariant forall c | c in seen || c in frontier :: Reachable(l, start, c)
      invariant start in seen || start in frontier
      invariant forall c, n | c in seen && n in l.OpenNeighbours(c) :: n in seen || n in frontier
      decreases |Cells() - seen|, |frontier|
    {
      var rest, c := frontier[..|frontier| - 1], frontier[|frontier| - 1];
      assert frontier == rest + [c];
      frontier := rest;
      if c !in seen {
        CellsLeft(seen, c);
        Discover(l, start, c);
        seen := seen + {c};
        frontier := rest + Unseen(l.OpenNeighbours(c), seen);
      }
    }
    ClosedHoldsReachable(l, seen, start);
  }

  lemma CellsLeft(seen: set<Cell>, c: Cell)
    requires c !in seen && InMaze(c)
    ensures c in Cells() && |Cells() - (seen + {c})| < |Cells() - seen|
  {
    SmallerSet(Cells() - (seen + {c}), Cells() - seen);
  }

  lemma Discover(l: Layout, start: Cell, c: Cell)
    requires l.Valid() && InMaze(c) && Reachable(l, start, c)
    ensures forall n | n in l.OpenNeighbours(c) :: InMaze(n) && Reachable(l, start, n)
  {
    NeighbourMeaning(l, c);
    forall n | n in l.OpenNeighbours(c) ensures InMaze(n) && Reachable(l, start, n) {
      var d: Dir :| l.Step(c, d) == Some(n);
      NeighbourInMaze(l, c, d);
      ReachableStep(l, start, c, n);
    }
  }

  lemma ClosedHoldsReachable(l: Layout, s: set<Cell>, a: Cell)
    requires l.Valid() && a in s
    requires forall c, n | c in s && n in l.OpenNeighbours(c) :: n in s
    ensures forall c | Reachable(l, a, c) :: c in s
  {
    forall c | Reachable(l, a, c) ensures c in s {
      var p: seq<Cell> :| Path(l, p) && p[0] == a && p[|p| - 1] == c;
      ClosedHoldsPath(l, s, p);
    }
  }

  lemma SmallerSet<T>(a: set<T>, b: set<T>)
    requires a < b
    ensures |a| < |b|
  {
    var x :| x in b && x !in a;
    assert a <= b - {x};
    SubsetSize(a, b - {x});
  }

  lemma SubsetSize<T>(a: set<T>, b: set<T>)
    requires a <= b
    ensures |a| <= |b|
  {
    if a != {} {
      var x :| x in a;
      SubsetSize(a - {x}, b - {x});
    }
  }
}
