/** The map validator: one pass per rule, each adding a problem per violation;
    a map is accepted when no pass found any. */
module Validator {
  import opened Wrappers
  import opened Maze

  datatype Problem =
    | NotSymmetric(y: int) | OutsideOpen(x: int) | NoMouth(c: Cell) | BorderOpen(c: Cell) | BlockedMouth(c: Cell)
    | HouseTop(x: int) | HouseBottom(x: int) | HouseInside(c: Cell) | HouseSides | AboveDoor(c: Cell)
    | StartBlocked(c: Cell)
    | DeadEnd(c: Cell) | Unreachable(c: Cell) | EnergizerCount(n: int) | EnergizerColumn(c: Cell) | DotCount(n: int)

  // ---------- the rules ----------

  ghost predicate Symmetric(l: Layout)
    requires l.Valid()
  {
    forall x, y | 0 <= x < W && 0 <= y < H :: l.At((x, y)) == l.At((W - 1 - x, y))
  }

  ghost predicate OutsideClosed(l: Layout)
    requires l.Valid()
  {
    forall x | 0 <= x < W :: l.At((x, 0)) == '#' && l.At((x, H - 1)) == '#'
  }

  ghost predicate SidesClosed(l: Layout)
    requires l.Valid()
  {
    forall y | 1 <= y < H - 1 :: SideRight(l, (0, y)) && SideRight(l, (W - 1, y))
  }

  predicate SideRight(l: Layout, c: Cell)
    requires l.Valid() && InMaze(c)
  {
    l.At(c) == if c.1 in l.tunnels then 'T' else '#'
  }

  ghost predicate MouthsOpen(l: Layout)
    requires l.Valid()
  {
    forall y | y in l.tunnels :: MouthClear(l, y)
  }

  predicate MouthClear(l: Layout, y: nat)
    requires l.Valid() && y in l.tunnels
  {
    l.At((1, y)) != '#' && l.At((W - 2, y)) != '#'
  }

  ghost predicate HouseBuilt(l: Layout)
    requires l.Valid()
  {
    && (forall x | 11 <= x <= 16 :: l.At((x, 10)) == (if Door((x, 10)) then '=' else '#') && l.At((x, 12)) == '#')
    && (forall x | 12 <= x <= 15 :: l.At((x, 11)) == ' ')
    && l.At((11, 11)) == '#' && l.At((16, 11)) == '#'
    && l.At((13, 9)) != '#' && l.At((14, 9)) != '#'
    && l.At((13, 19)) == ' ' && l.At((14, 19)) == ' '
  }

  ghost predicate NoDeadEnds(l: Layout)
    requires l.Valid()
  {
    forall c | InMaze(c) && l.Corridor(c) :: |l.OpenNeighbours(c)| >= 2
  }

  ghost predicate DotsReachable(l: Layout)
    requires l.Valid()
  {
    forall c | InMaze(c) && (l.Code(c) == DOT || l.Code(c) == ENERGIZER) :: Reachable(l, START, c)
  }

  function CellAt(i: nat): Cell {
    (i % W, i / W)
  }

  /** The cells with a code among the first n in row-major order. */
  function CellsWith(l: Layout, code: int, n: nat): seq<Cell>
    requires l.Valid() && n <= W * H
  {
    if n == 0 then []
    else CellsWith(l, code, n - 1) + (if l.Code(CellAt(n - 1)) == code then [CellAt(n - 1)] else [])
  }

  ghost predicate PelletsRight(l: Layout, target: int, tolerance: int)
    requires l.Valid()
  {
    && |CellsWith(l, ENERGIZER, W * H)| == 4
    && (forall c | c in CellsWith(l, ENERGIZER, W * H) :: c.0 == 1 || c.0 == W - 2)
    && -tolerance <= |CellsWith(l, DOT, W * H)| - target <= tolerance
  }

  /** What acceptance means. */
  ghost predicate Accepted(l: Layout, target: int, tolerance: int) {
    && l.Valid()
    && Symmetric(l) && OutsideClosed(l) && SidesClosed(l) && MouthsOpen(l) && HouseBuilt(l)
    && NoDeadEnds(l) && DotsReachable(l) && PelletsRight(l, target, tolerance)
  }

  // ---------- the passes ----------

  lemma {:induction false} ReversedIsMirror(r: string)
    ensures |Reversed(r)| == |r| && forall x | 0 <= x < |r| :: Reversed(r)[x] == r[|r| - 1 - x]
  {
    if r != "" {
      ReversedIsMirror(r[1..]);
    }
  }

  function Reversed(r: string): string {
    if r == "" then "" else Reversed(r[1..]) + [r[0]]
  }

  method CheckSymmetry(l: Layout) returns (errs: seq<Problem>)
    requires l.Valid()
    ensures errs == [] <==> Symmetric(l)
  {
    errs := [];
    for y := 0 to H
      invariant errs == [] <==> forall x, k | 0 <= x < W && 0 <= k < y :: l.At((x, k)) == l.At((W - 1 - x, k))
    {
      var r := l.rows[y];
      assert r in l.rows;
      RowIsMirror(l, y);
      hide Layout.Valid, Layout.At, Reversed;
      if r != Reversed(r) {
        errs := errs + [NotSymmetric(y)];
      }
    }
  }

  /** A row reads the same backwards exactly when its cells are mirrored. */
  lemma RowIsMirror(l: Layout, y: nat)
    requires l.Valid() && y < H
    ensures l.rows[y] == Reversed(l.rows[y]) <==> forall x | 0 <= x < W :: l.At((x, y)) == l.At((W - 1 - x, y))
  {
    var r := l.rows[y];
    assert r in l.rows;
    ReversedIsMirror(r);
    assert forall x | 0 <= x < W :: l.At((x, y)) == r[x];
    if forall x | 0 <= x < W :: l.At((x, y)) == l.At((W - 1 - x, y)) {
      assert forall x | 0 <= x < W :: r[x] == Reversed(r)[x];
    } else {
      var x :| 0 <= x < W && l.At((x, y)) != l.At((W - 1 - x, y));
      assert r[x] != Reversed(r)[x];
    }
  }

  method CheckOutside(l: Layout) returns (errs: seq<Problem>)
    requires l.Valid()
    ensures errs == [] <==> OutsideClosed(l)
  {
    for x := 0 to W
      invariant forall k | 0 <= k < x :: l.At((k, 0)) == '#' && l.At((k, H - 1)) == '#'
    {
      if l.At((x, 0)) != '#' || l.At((x, H - 1)) != '#' {
        return [OutsideOpen(x)];
      }
    }
    return [];
  }

  method CheckSides(l: Layout) returns (errs: seq<Problem>)
    requires l.Valid()
    ensures errs == [] <==> SidesClosed(l)
  {
    errs := [];
    for y := 1 to H - 1
      invariant errs == [] <==> forall k | 1 <= k < y :: SideRight(l, (0, k)) && SideRight(l, (W - 1, k))
    {
      errs := errs + SideProblem(l, (0, y)) + SideProblem(l, (W - 1, y));
    }
  }

  function SideProblem(l: Layout, c: Cell): (p: seq<Problem>)
    requires l.Valid() && InMaze(c)
    ensures p == [] <==> SideRight(l, c)
  {
    var wantMouth := c.1 in l.tunnels;
    (if wantMouth && l.At(c) != 'T' then [NoMouth(c)] else [])
    + (if !wantMouth && l.At(c) != '#' then [BorderOpen(c)] else [])
  }

  function MouthProblem(l: Layout, y: nat): (p: seq<Problem>)
    requires l.Valid() && y in l.tunnels
    ensures p == [] <==> MouthClear(l, y)
  {
    (if l.At((1, y)) == '#' then [BlockedMouth((1, y))] else [])
    + (if l.At((W - 2, y)) == '#' then [BlockedMouth((W - 2, y))] else [])
  }

  method CheckMouths(l: Layout) returns (errs: seq<Problem>)
    requires l.Valid()
    ensures errs == [] <==> MouthsOpen(l)
  {
    errs := [];
    for i := 0 to |l.tunnels|
      invariant errs == [] <==> forall y | y in l.tunnels[..i] :: MouthClear(l, y)
    {
      var y := l.tunnels[i];
      assert y in l.tunnels && l.tunnels[..i + 1] == l.tunnels[..i] + [y];
      assert forall k | k in l.tunnels[..i + 1] :: k in l.tunnels[..i] || k == y;
      assert y in l.tunnels[..i + 1];
      errs := errs + MouthProblem(l, y);
    }
    assert l.tunnels[..|l.tunnels|] == l.tunnels;
  }

  method CheckHouse(l: Layout) returns (errs: seq<Problem>)
    requires l.Valid()
    ensures errs == [] <==> HouseBuilt(l)
  {
    errs := [];
    for x := 11 to 17
      invariant errs == [] <==> forall k | 11 <= k < x ::
                l.At((k, 10)) == (if Door((k, 10)) then '=' else '#') && l.At((k, 12)) == '#'
    {
      if l.At((x, 10)) != (if Door((x, 10)) then '=' else '#') {
        errs := errs + [HouseTop(x)];
      }
      if l.At((x, 12)) != '#' {
        errs := errs + [HouseBottom(x)];
      }
    }
    ghost var walls := errs;
    for x := 12 to 16
      invariant errs == [] <==> walls == [] && forall k | 12 <= k < x :: l.At((k, 11)) == ' '
    {
      if l.At((x, 11)) != ' ' {
        errs := errs + [HouseInside((x, 11))];
      }
    }
    if l.At((11, 11)) != '#' || l.At((16, 11)) != '#' {
      errs := errs + [HouseSides];
    }
    for x := 13 to 15
      invariant errs == [] ==> forall k | 13 <= k < x :: l.At((k, 9)) != '#' && l.At((k, 19)) == ' '
      invariant HouseBuilt(l) ==> errs == []
      invariant errs == [] ==> walls == [] && l.At((11, 11)) == '#' && l.At((16, 11)) == '#'
      invariant errs == [] ==> forall k | 12 <= k <= 15 :: l.At((k, 11)) == ' '
    {
      if l.At((x, 9)) == '#' {
        errs := errs + [AboveDoor((x, 9))];
      }
      if l.At((x, 19)) != ' ' {
        errs := errs + [StartBlocked((x, 19))];
      }
    }
  }

  method CheckDeadEnds(l: Layout) returns (errs: seq<Problem>)
    requires l.Valid()
    ensures errs == [] <==> NoDeadEnds(l)
  {
    hide Layout.OpenNeighbours;
    errs := [];
    for i := 0 to W * H
      invariant errs == [] <==> forall k: nat | k < i && l.Corridor(CellAt(k)) :: |l.OpenNeighbours(CellAt(k))| >= 2
    {
      var c := CellAt(i);
      if l.Corridor(c) && |l.OpenNeighbours(c)| < 2 {
        errs := errs + [DeadEnd(c)];
      }
    }
    EveryCell();
  }

  lemma EveryCell()
    ensures forall c: Cell | InMaze(c) :: exists k: nat :: k < W * H && CellAt(k) == c
    ensures forall k: nat | k < W * H :: InMaze(CellAt(k))
  {
    forall c: Cell | InMaze(c) ensures exists k: nat :: k < W * H && CellAt(k) == c {
      assert CellAt(W * c.1 + c.0) == c;
    }
  }

  method Collect(l: Layout, code: int) returns (cells: seq<Cell>)
    requires l.Valid()
    ensures cells == CellsWith(l, code, W * H)
  {
    cells := [];
    for i := 0 to W * H
      invariant cells == CellsWith(l, code, i)
    {
      if l.Code(CellAt(i)) == code {
        cells := cells + [CellAt(i)];
      }
    }
  }

  /** Each cell once, row by row, none from place n on. */
  predicate InOrder(cells: seq<Cell>, n: int) {
    && (forall i | 0 <= i < |cells| :: 28 * cells[i].1 + cells[i].0 < n)
    && forall i, j | 0 <= i < j < |cells| :: 28 * cells[i].1 + cells[i].0 < 28 * cells[j].1 + cells[j].0
  }

  lemma OneMoreInOrder(cells: seq<Cell>, c: Cell, n: int)
    requires InOrder(cells, n) && 28 * c.1 + c.0 == n
    ensures InOrder(cells + [c], n + 1)
  {
  }

  lemma LooserOrder(cells: seq<Cell>, n: int)
    requires InOrder(cells, n)
    ensures InOrder(cells, n + 1)
  {
  }

  lemma {:induction false} CellsInOrder(l: Layout, code: int, n: nat)
    requires l.Valid() && n <= W * H
    ensures InOrder(CellsWith(l, code, n), n)
  {
    if n > 0 {
      CellsInOrder(l, code, n - 1);
      assert 28 * CellAt(n - 1).1 + CellAt(n - 1).0 == n - 1;
      hide CellAt, Layout.Code, Layout.Valid, InOrder;
      OneMoreInOrder(CellsWith(l, code, n - 1), CellAt(n - 1), n - 1);
      LooserOrder(CellsWith(l, code, n - 1), n - 1);
    } else {
      assert CellsWith(l, code, n) == [];
    }
  }

  lemma CellsWithMembers(l: Layout, code: int, n: nat)
    requires l.Valid() && n <= W * H
    ensures forall c :: c in CellsWith(l, code, n) <==> exists k: nat :: k < n && CellAt(k) == c && l.Code(c) == code
  {
  }

  method CheckReachable(l: Layout, pellets: seq<Cell>) returns (errs: seq<Problem>)
    requires l.Valid()
    ensures errs == [] <==> forall c | c in pellets :: Reachable(l, START, c)
  {
    var seen := Flood(l, START);
    errs := [];
    for i := 0 to |pellets|
      invariant errs == [] <==> forall k | 0 <= k < i :: Reachable(l, START, pellets[k])
    {
      if pellets[i] !in seen {
        errs := errs + [Unreachable(pellets[i])];
      }
    }
  }

  lemma PelletsAreAll(l: Layout)
    requires l.Valid()
    ensures var p := CellsWith(l, DOT, W * H) + CellsWith(l, ENERGIZER, W * H);
            (forall c | c in p :: Reachable(l, START, c)) <==> DotsReachable(l)
  {
    CellsWithMembers(l, DOT, W * H);
    CellsWithMembers(l, ENERGIZER, W * H);
    EveryCell();
    var p := CellsWith(l, DOT, W * H) + CellsWith(l, ENERGIZER, W * H);
    assert forall c :: c in p <==> InMaze(c) && (l.Code(c) == DOT || l.Code(c) == ENERGIZER);
  }

  method CheckPellets(l: Layout, energizers: seq<Cell>, dots: int, target: int, tolerance: int)
    returns (errs: seq<Problem>)
    ensures errs == [] <==> && |energizers| == 4 && (forall c | c in energizers :: c.0 == 1 || c.0 == W - 2)
                            && -tolerance <= dots - target <= tolerance
  {
    errs := if |energizers| != 4 then [EnergizerCount(|energizers|)] else [];
    for i := 0 to |energizers|
      invariant errs == [] <==> |energizers| == 4 && forall k | 0 <= k < i ::
                energizers[k].0 == 1 || energizers[k].0 == W - 2
    {
      if energizers[i].0 != 1 && energizers[i].0 != W - 2 {
        errs := errs + [EnergizerColumn(energizers[i])];
      }
    }
    if dots - target > tolerance || target - dots > tolerance {
      errs := errs + [DotCount(dots)];
    }
  }

  datatype Report = Report(dots: nat, energizers: seq<Cell>)

  /** Accepts a map exactly when every rule holds; the report then counts its
      dots and lists its energizers. */
  method Validate(l: Layout, target: int, tolerance: int) returns (r: Result<Report, seq<Problem>>)
    requires l.Valid()
    ensures r.Success? <==> Accepted(l, target, tolerance)
    ensures r.Success? ==>
              r.value.dots == |CellsWith(l, DOT, W * H)| && r.value.energizers == CellsWith(l, ENERGIZER, W * H)
  {
    hide Symmetric, OutsideClosed, SidesClosed, MouthsOpen, HouseBuilt;
    hide NoDeadEnds, DotsReachable, CellsWith, Layout.Valid, Reachable;
    var e1 := CheckSymmetry(l);
    var e2 := CheckOutside(l);
    var e3 := CheckSides(l);
    var e4 := CheckMouths(l);
    var e5 := CheckHouse(l);
    var e6 := CheckDeadEnds(l);
    var dots := Collect(l, DOT);
    var energizers := Collect(l, ENERGIZER);
    var e7 := CheckReachable(l, dots + energizers);
    PelletsAreAll(l);
    var e8 := CheckPellets(l, energizers, |dots|, target, tolerance);
    var errs := e1 + e2 + e3 + e4 + e5 + e6 + e7 + e8;
    if errs != [] {
      return Failure(errs);
    }
    return Success(Report(|dots|, energizers));
  }

  // ---------- from the text ----------

  /** The lines of a map file that are not blank. */
  function NonBlank(lines: seq<string>): seq<string> {
    if lines == [] then []
    else (if lines[0] == "" then [] else [lines[0]]) + NonBlank(lines[1..])
  }

  lemma {:induction false} NonBlankSnoc(lines: seq<string>, line: string)
    ensures NonBlank(lines + [line]) == NonBlank(lines) + (if line == "" then [] else [line])
  {
    if lines == [] {
      assert [line][1..] == [];
    } else {
      assert (lines + [line])[1..] == lines[1..] + [line];
      NonBlankSnoc(lines[1..], line);
    }
  }

  datatype Rejection = Misshapen | Broken(problems: seq<Problem>)

  /** Parsing and validating a map text: accepted exactly when its non-blank
      lines are 25 rows of 28 known characters, the tunnel rows exist, and every
      rule holds. */
  method ValidateText(lines: seq<string>, tunnels: seq<nat>, target: int, tolerance: int)
    returns (r: Result<Report, Rejection>)
    ensures r.Success? <==> Accepted(Layout(NonBlank(lines), tunnels), target, tolerance)
    ensures r == Failure(Misshapen) <==> !Layout(NonBlank(lines), tunnels).Valid()
  {
    hide Shaped, Symmetric, OutsideClosed, SidesClosed, MouthsOpen, HouseBuilt, NoDeadEnds, DotsReachable, PelletsRight;
    var rows: seq<string> := [];
    for i := 0 to |lines|
      invariant rows == NonBlank(lines[..i])
    {
      NonBlankSnoc(lines[..i], lines[i]);
      assert lines[..i + 1] == lines[..i] + [lines[i]];
      if lines[i] != "" {
        rows := rows + [lines[i]];
      }
    }
    assert lines[..|lines|] == lines;
    if !Shaped(rows) || exists y | y in tunnels :: y >= H {
      return Failure(Misshapen);
    }
    var report := Validate(Layout(rows, tunnels), target, tolerance);
    r := if report.Success? then Success(report.value) else Failure(Broken(report.error));
  }
}
