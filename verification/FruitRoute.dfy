/** The route compiled when the fruit spawns: in by one mouth, once around the
    ring, on to another corner and out by its mouth. */
module FruitRoute {
  import opened Bytes
  import opened Wrappers
  import opened Maze
  import opened Validator
  import opened FruitPaths

  const QUEUE := 20

  function Lap(corner: nat): seq<Run>
    requires corner < 4
  {
    [CYCLE[corner], CYCLE[(corner + 1) % 4], CYCLE[(corner + 2) % 4], CYCLE[(corner + 3) % 4]]
  }

  lemma LapAt(corner: nat, j: nat)
    requires corner < 4 && j < 4
    ensures |Lap(corner)| == 4 && Lap(corner)[j] == CYCLE[(corner + j) % 4]
  {
  }

  function Around(a: nat, b: nat): seq<Run>
    requires a < 4 && b < 4
    decreases (b - a) % 4
  {
    if a == b then [] else [CYCLE[a]] + Around((a + 1) % 4, b)
  }

  function Route(entry: FruitPath, exit: FruitPath): seq<Run>
    requires entry.corner < 4 && exit.corner < 4
  {
    entry.runs + Lap(entry.corner) + Around(entry.corner, exit.corner) + BackRuns(exit.runs)
  }

  // ---------- the route is a walk ----------

  /** Runs walked from a cell stay in the corridors and end at another. */
  ghost predicate Leads(l: Layout, c: Cell, runs: seq<Run>, e: Cell)
    requires l.Valid()
  {
    Walks(l, c, Units(runs)) && End(c, Units(runs)) == e
  }

  lemma LeadsConcat(l: Layout, c: Cell, a: seq<Run>, m: Cell, b: seq<Run>, e: Cell)
    requires l.Valid() && Leads(l, c, a, m) && Leads(l, m, b, e)
    ensures Leads(l, c, a + b, e)
  {
    UnitsConcat(a, b);
    WalkConcat(l, c, Units(a), Units(b));
  }

  lemma Segment(l: Layout, i: nat)
    requires l.Valid() && RingAccepted(l) && i < 4
    ensures Leads(l, RING[i], [CYCLE[i]], RING[(i + 1) % 4])
  {
    assert SegmentAccepted(l, i);
  }

  lemma LapLeads(l: Layout, i: nat)
    requires l.Valid() && RingAccepted(l) && i < 4
    ensures Leads(l, RING[i], Lap(i), RING[i])
  {
    hide Leads, RingAccepted;
    var j, k, m := (i + 1) % 4, (i + 2) % 4, (i + 3) % 4;
    Segment(l, i);
    Segment(l, j);
    Segment(l, k);
    Segment(l, m);
    LeadsConcat(l, RING[i], [CYCLE[i]], RING[j], [CYCLE[j]], RING[k]);
    LeadsConcat(l, RING[i], [CYCLE[i]] + [CYCLE[j]], RING[k], [CYCLE[k]], RING[m]);
    LeadsConcat(l, RING[i], [CYCLE[i]] + [CYCLE[j]] + [CYCLE[k]], RING[m], [CYCLE[m]], RING[i]);
    assert [CYCLE[i]] + [CYCLE[j]] + [CYCLE[k]] + [CYCLE[m]] == Lap(i);
  }

  lemma AroundNext(a: nat, b: nat)
    requires a < 4 && b < 4 && a != b
    ensures Around(a, b) == [CYCLE[a]] + Around((a + 1) % 4, b)
  {
  }

  lemma {:induction false} AroundSize(a: nat, b: nat)
    requires a < 4 && b < 4
    ensures |Around(a, b)| == (b - a) % 4 <= 3
    decreases (b - a) % 4
  {
    if a != b {
      OneCloser(a, b);
      AroundSize((a + 1) % 4, b);
    }
  }

  lemma {:induction false} AroundLeads(l: Layout, a: nat, b: nat)
    requires l.Valid() && RingAccepted(l) && a < 4 && b < 4
    ensures Leads(l, RING[a], Around(a, b), RING[b])
    decreases (b - a) % 4
  {
    if a != b {
      Segment(l, a);
      AroundLeads(l, (a + 1) % 4, b);
      LeadsConcat(l, RING[a], [CYCLE[a]], RING[(a + 1) % 4], Around((a + 1) % 4, b), RING[b]);
    }
  }

  /** Every declared mouth of an accepted maze is a corridor cell. */
  lemma MouthIsCorridor(l: Layout, target: int, tolerance: int, y: nat)
    requires Accepted(l, target, tolerance) && y in l.tunnels
    ensures l.Corridor((0, y)) && l.Corridor((W - 1, y))
  {
    hide Symmetric, HouseBuilt, NoDeadEnds, DotsReachable, PelletsRight, Layout.Valid, Layout.Corridor, MouthClear;
    MouthRow(l, y);
    assert SideRight(l, (0, y)) && SideRight(l, (W - 1, y));
    MouthOpen(l, (0, y));
    MouthOpen(l, (W - 1, y));
  }

  lemma MouthRow(l: Layout, y: nat)
    requires l.Valid() && OutsideClosed(l) && MouthsOpen(l) && y in l.tunnels
    ensures 1 <= y <= H - 2
  {
    assert MouthClear(l, y);
    assert l.At((1, 0)) == '#' && l.At((1, H - 1)) == '#';
  }

  lemma MouthOpen(l: Layout, c: Cell)
    requires l.Valid() && InMaze(c) && (c.0 == 0 || c.0 == W - 1) && c.1 in l.tunnels && SideRight(l, c)
    ensures l.Corridor(c)
  {
  }

  lemma ExitLeads(l: Layout, target: int, tolerance: int, p: FruitPath)
    requires Accepted(l, target, tolerance) && PathAccepted(l, p)
    ensures Leads(l, RING[p.corner], BackRuns(p.runs), p.start)
  {
    MouthIsCorridor(l, target, tolerance, p.start.1);
    BackWalks(l, p.start, Units(p.runs));
    UnitsBack(p.runs);
  }

  // ---------- its shape ----------

  /** Once around the ring: four sides through the corners in turn, 26 steps back
      to the first corner, and no other cell twice. */
  ghost predicate Circles(runs: seq<Run>, corner: nat)
    requires corner < 4
  {
    var from, u := RING[corner], Units(runs);
    && |runs| == 4 && |u| == 26
    && (forall j | 0 <= j <= 4 :: End(from, Units(runs[..j])) == RING[(corner + j) % 4])
    && (forall i, j | 0 <= i < j < 26 :: Trail(from, u)[i] != Trail(from, u)[j])
  }

  /** On around the ring, corner by corner, from one to another. */
  ghost predicate Continues(runs: seq<Run>, a: nat, b: nat)
    requires a < 4 && b < 4
  {
    && |runs| == (b - a) % 4
    && forall j | 0 <= j <= |runs| :: End(RING[a], Units(runs[..j])) == RING[(a + j) % 4]
  }

  /** The other runs last to first, each the other way. */
  ghost predicate Retraces(back: seq<Run>, runs: seq<Run>) {
    && |back| == |runs|
    && forall k | 0 <= k < |runs| ::
         && back[k].n == runs[|runs| - 1 - k].n
         && DX(back[k].d) == -DX(runs[|runs| - 1 - k].d) && DY(back[k].d) == -DY(runs[|runs| - 1 - k].d)
  }

  /** In by the entry's runs, once around, on to the exit's corner, and out by the
      exit's runs backwards. */
  ghost predicate InAroundOut(route: seq<Run>, entry: FruitPath, exit: FruitPath)
    requires entry.corner < 4 && exit.corner < 4
  {
    var n, m := |entry.runs|, |entry.runs| + 4 + (exit.corner - entry.corner) % 4;
    && |route| == m + |exit.runs|
    && route[..n] == entry.runs && Circles(route[n..n + 4], entry.corner)
    && Continues(route[n + 4..m], entry.corner, exit.corner) && Retraces(route[m..], exit.runs)
  }

  lemma {:induction false} TrailAt(c: Cell, u: seq<Dir>, k: nat)
    requires k <= |u|
    ensures Trail(c, u)[k] == End(c, u[..k])
    decreases |u|
  {
    if k > 0 {
      TrailAt(Next(c, u[0]), u[1..], k - 1);
      assert u[..k] == [u[0]] + u[1..][..k - 1];
    }
  }

  /** The cell some steps along a side of the ring. */
  function OnSide(side: nat, step: nat): Cell
    requires side < 4
  {
    (RING[side].0 + step * DX(CYCLE[side].d), RING[side].1 + step * DY(CYCLE[side].d))
  }

  /** Where a walk around the ring from a corner is after so many steps. */
  function Where(corner: nat, k: nat): (w: (nat, nat))
    requires corner < 4
    ensures w.0 < 4 && w.1 < CYCLE[w.0].n
    decreases k
  {
    RingCloses(corner);
    if k < CYCLE[corner].n then (corner, k) else Where((corner + 1) % 4, k - CYCLE[corner].n)
  }

  function Sides(corner: nat, m: nat): seq<Run>
    requires corner < 4
    decreases m
  {
    if m == 0 then [] else [CYCLE[corner]] + Sides((corner + 1) % 4, m - 1)
  }

  lemma {:induction false} SidesWalk(corner: nat, m: nat, k: nat)
    requires corner < 4 && k < |Units(Sides(corner, m))|
    ensures var w := Where(corner, k); End(RING[corner], Units(Sides(corner, m))[..k]) == OnSide(w.0, w.1)
    decreases m
  {
    var r, next := CYCLE[corner], (corner + 1) % 4;
    assert m > 0;
    var rest := Sides(next, m - 1);
    var side := seq(r.n, _ => r.d);
    SidesUnits(corner, m);
    hide Units, Sides;
    if k < r.n {
      assert (side + Units(rest))[..k] == seq(k, _ => r.d);
      EndOfRun(RING[corner], r.d, k);
    } else {
      SidesWalk(next, m - 1, k - r.n);
      EndOfSide(corner);
      assert (side + Units(rest))[..k] == side + Units(rest)[..k - r.n];
      EndAppend(RING[corner], side, Units(rest)[..k - r.n]);
    }
  }

  lemma EndOfSide(corner: nat)
    requires corner < 4
    ensures var r := CYCLE[corner]; End(RING[corner], seq(r.n, _ => r.d)) == RING[(corner + 1) % 4]
  {
    EndOfRun(RING[corner], CYCLE[corner].d, CYCLE[corner].n);
  }

  lemma {:induction false} EndAppend(c: Cell, u: seq<Dir>, v: seq<Dir>)
    ensures End(c, u + v) == End(End(c, u), v)
    decreases |u|
  {
    if u == [] {
      assert u + v == v;
    } else {
      assert (u + v)[1..] == u[1..] + v;
      EndAppend(Next(c, u[0]), u[1..], v);
    }
  }

  lemma {:induction false} SidesEnd(corner: nat, m: nat)
    requires corner < 4
    ensures |Sides(corner, m)| == m && End(RING[corner], Units(Sides(corner, m))) == RING[(corner + m) % 4]
    decreases m
  {
    hide Units, End, Sides;
    if m > 0 {
      var next := (corner + 1) % 4;
      SidesEnd(next, m - 1);
      OneSideMore(corner, m);
      NextCorner(corner, m);
      assert RING[(next + (m - 1)) % 4] == RING[(corner + m) % 4];
    } else {
      NoSides(corner);
    }
  }

  lemma NoSides(corner: nat)
    requires corner < 4
    ensures Sides(corner, 0) == [] && End(RING[corner], Units([])) == RING[(corner + 0) % 4]
  {
  }

  lemma OneSideMore(corner: nat, m: nat)
    requires corner < 4 && m > 0
    ensures |Sides(corner, m)| == 1 + |Sides((corner + 1) % 4, m - 1)|
    ensures End(RING[corner], Units(Sides(corner, m))) ==
            End(RING[(corner + 1) % 4], Units(Sides((corner + 1) % 4, m - 1)))
  {
    var r := CYCLE[corner];
    SidesUnits(corner, m);
    EndOfSide(corner);
    hide Units, End;
    EndAppend(RING[corner], seq(r.n, _ => r.d), Units(Sides((corner + 1) % 4, m - 1)));
  }

  lemma SidesUnits(corner: nat, m: nat)
    requires corner < 4 && m > 0
    ensures var r := CYCLE[corner];
            Units(Sides(corner, m)) == seq(r.n, _ => r.d) + Units(Sides((corner + 1) % 4, m - 1))
  {
    assert Sides(corner, m)[1..] == Sides((corner + 1) % 4, m - 1);
  }

  lemma NextCorner(corner: nat, m: nat)
    requires corner < 4 && m > 0
    ensures ((corner + 1) % 4 + (m - 1)) % 4 == (corner + m) % 4
  {
  }

  lemma {:induction false} SidesFront(corner: nat, m: nat, j: nat)
    requires corner < 4 && j <= m
    ensures |Sides(corner, m)| == m && Sides(corner, m)[..j] == Sides(corner, j)
    decreases m
  {
    if m > 0 {
      SidesFront((corner + 1) % 4, m - 1, if j == 0 then 0 else j - 1);
      if j > 0 {
        var rest := Sides((corner + 1) % 4, m - 1);
        assert ([CYCLE[corner]] + rest)[..j] == [CYCLE[corner]] + rest[..j - 1];
      }
    }
  }

  lemma LapIsSides(corner: nat)
    requires corner < 4
    ensures Lap(corner) == Sides(corner, 4)
  {
    var a, b, c := (corner + 1) % 4, (corner + 2) % 4, (corner + 3) % 4;
    assert Sides(c, 1) == [CYCLE[c]] + Sides((c + 1) % 4, 0);
    assert Sides(b, 2) == [CYCLE[b]] + Sides(c, 1);
    assert Sides(a, 3) == [CYCLE[a]] + Sides(b, 2);
  }

  lemma {:induction false} AroundIsSides(a: nat, b: nat)
    requires a < 4 && b < 4
    ensures Around(a, b) == Sides(a, (b - a) % 4)
    decreases (b - a) % 4
  {
    if a != b {
      OneCloser(a, b);
      AroundNext(a, b);
      AroundIsSides((a + 1) % 4, b);
      hide Around;
    } else {
      assert (b - a) % 4 == 0;
    }
  }

  lemma OneCloser(a: nat, b: nat)
    requires a < 4 && b < 4 && a != b
    ensures (b - (a + 1) % 4) % 4 == (b - a) % 4 - 1
  {
  }

  lemma WhereIs(corner: nat, k: nat)
    requires corner < 4 && k < 26
    ensures var a, b, c := (corner + 1) % 4, (corner + 2) % 4, (corner + 3) % 4;
            var n0, n1, n2 := CYCLE[corner].n, CYCLE[corner].n + CYCLE[a].n, CYCLE[corner].n + CYCLE[a].n + CYCLE[b].n;
            Where(corner, k) == if k < n0 then (corner, k) else if k < n1 then (a, k - n0)
                                else if k < n2 then (b, k - n1) else (c, k - n2)
  {
    var a, b, c := (corner + 1) % 4, (corner + 2) % 4, (corner + 3) % 4;
    var n0 := CYCLE[corner].n;
    var n1 := n0 + CYCLE[a].n;
    var n2 := n1 + CYCLE[b].n;
    FourSides(corner);
    assert k >= n0 ==> Where(corner, k) == Where(a, k - n0);
    assert k >= n1 ==> Where(a, k - n0) == Where(b, k - n1);
    assert k >= n2 ==> Where(b, k - n1) == Where(c, k - n2);
  }

  lemma OnSideApart(i: nat, s: nat, j: nat, t: nat)
    requires i < 4 && j < 4 && s < CYCLE[i].n && t < CYCLE[j].n && OnSide(i, s) == OnSide(j, t)
    ensures i == j && s == t
  {
  }

  lemma LapApart(corner: nat, i: nat, j: nat)
    requires corner < 4 && i < j < 26
    ensures OnSide(Where(corner, i).0, Where(corner, i).1) != OnSide(Where(corner, j).0, Where(corner, j).1)
  {
    WhereIs(corner, i);
    WhereIs(corner, j);
    var w, v := Where(corner, i), Where(corner, j);
    hide OnSide, Where;
    if OnSide(w.0, w.1) == OnSide(v.0, v.1) {
      OnSideApart(w.0, w.1, v.0, v.1);
      assert false;
    }
  }

  lemma FourSides(corner: nat)
    requires corner < 4
    ensures CYCLE[corner].n + CYCLE[(corner + 1) % 4].n + CYCLE[(corner + 2) % 4].n + CYCLE[(corner + 3) % 4].n == 26
    ensures ((corner + 1) % 4 + 1) % 4 == (corner + 2) % 4 && ((corner + 2) % 4 + 1) % 4 == (corner + 3) % 4
  {
  }

  lemma LapSize(corner: nat)
    requires corner < 4
    ensures |Units(Sides(corner, 4))| == 26
  {
    FourSides(corner);
    assert |Units(Sides(((corner + 3) % 4 + 1) % 4, 0))| == 0;
    hide Sides, Units;
    SidesUnits(corner, 4);
    SidesUnits((corner + 1) % 4, 3);
    SidesUnits((corner + 2) % 4, 2);
    SidesUnits((corner + 3) % 4, 1);
  }

  lemma LapCircles(corner: nat)
    requires corner < 4
    ensures Circles(Lap(corner), corner)
  {
    LapIsSides(corner);
    LapSize(corner);
    hide Sides, Lap, Units, OnSide, Where, Trail;
    var lap := Sides(corner, 4);
    forall j | 0 <= j <= 4 ensures End(RING[corner], Units(lap[..j])) == RING[(corner + j) % 4] {
      SidesFront(corner, 4, j);
      SidesEnd(corner, j);
    }
    SidesEnd(corner, 4);
    var u := Units(lap);
    forall i, j | 0 <= i < j < 26 ensures Trail(RING[corner], u)[i] != Trail(RING[corner], u)[j] {
      TrailAt(RING[corner], u, i);
      TrailAt(RING[corner], u, j);
      SidesWalk(corner, 4, i);
      SidesWalk(corner, 4, j);
      LapApart(corner, i, j);
    }
  }

  lemma AroundContinues(a: nat, b: nat)
    requires a < 4 && b < 4
    ensures Continues(Around(a, b), a, b)
  {
    var m := (b - a) % 4;
    AroundIsSides(a, b);
    SidesEnd(a, m);
    forall j | 0 <= j <= m ensures End(RING[a], Units(Sides(a, m)[..j])) == RING[(a + j) % 4] {
      SidesFront(a, m, j);
      SidesEnd(a, j);
    }
    hide Sides, Around, Units;
  }

  lemma {:induction false} BackRetraces(runs: seq<Run>)
    ensures Retraces(BackRuns(runs), runs)
  {
    if runs != [] {
      BackRetraces(runs[1..]);
      OppositeTurns(runs[0].d);
      var back := BackRuns(runs[1..]);
      assert BackRuns(runs) == back + [Run(Opposite(runs[0].d), runs[0].n)];
      hide BackRuns, Opposite, DX, DY;
    }
  }

  /** The route has its four parts, whatever the maze. */
  lemma RouteGoesAround(entry: FruitPath, exit: FruitPath)
    requires entry.corner < 4 && exit.corner < 4
    ensures InAroundOut(Route(entry, exit), entry, exit)
  {
    LapCircles(entry.corner);
    AroundContinues(entry.corner, exit.corner);
    BackRetraces(exit.runs);
    var lap, on, out := Lap(entry.corner), Around(entry.corner, exit.corner), BackRuns(exit.runs);
    var route, n := Route(entry, exit), |entry.runs|;
    assert |lap| == 4;
    hide Circles, Continues, Retraces, Lap, Around, BackRuns;
    AroundSize(entry.corner, exit.corner);
    UnitsBack(exit.runs);
    assert route[..n] == entry.runs && route[n..n + 4] == lap;
    assert route[n + 4..n + 4 + |on|] == on && route[n + 4 + |on|..] == out;
  }

  /** For any two mouths the compiled route is one connected corridor walk from
      the entry mouth to its corner, once around the ring back to that corner,
      on to the exit corner, and out to exactly the exit mouth. */
  lemma RouteIsConnected(l: Layout, target: int, tolerance: int, entry: FruitPath, exit: FruitPath)
    requires Accepted(l, target, tolerance) && PathAccepted(l, entry) && PathAccepted(l, exit) && RingAccepted(l)
    ensures var a, b := RING[entry.corner], RING[exit.corner];
            && Leads(l, entry.start, entry.runs, a) && Leads(l, a, Lap(entry.corner), a)
            && Leads(l, a, Around(entry.corner, exit.corner), b) && Leads(l, b, BackRuns(exit.runs), exit.start)
    ensures Leads(l, entry.start, Route(entry, exit), exit.start) && InAroundOut(Route(entry, exit), entry, exit)
  {
    assert l.Valid();
    RouteGoesAround(entry, exit);
    hide Accepted, RingAccepted, Layout.Valid, InAroundOut;
    var a, b := RING[entry.corner], RING[exit.corner];
    LapLeads(l, entry.corner);
    AroundLeads(l, entry.corner, exit.corner);
    ExitLeads(l, target, tolerance, exit);
    assert Leads(l, entry.start, entry.runs, a);
    LeadsConcat(l, entry.start, entry.runs, a, Lap(entry.corner), a);
    LeadsConcat(l, entry.start, entry.runs + Lap(entry.corner), a, Around(entry.corner, exit.corner), b);
    var there := entry.runs + Lap(entry.corner) + Around(entry.corner, exit.corner);
    LeadsConcat(l, entry.start, there, b, BackRuns(exit.runs), exit.start);
  }

  lemma UnitsOfRun(r: Run)
    ensures Units([r]) == seq(r.n, _ => r.d)
  {
    assert [r][1..] == [];
  }

  lemma {:induction false} EndOfRun(c: Cell, d: Dir, n: nat)
    ensures End(c, seq(n, _ => d)) == (c.0 + n * DX(d), c.1 + n * DY(d))
    decreases n
  {
    if n > 0 {
      assert seq(n, _ => d)[1..] == seq(n - 1, _ => d);
      EndOfRun(Next(c, d), d, n - 1);
    }
  }

  /** The ring closes of itself: each side of the cycle joins two corners, so a
      lap is 26 cells through all four. */
  lemma RingCloses(i: nat)
    requires i < 4
    ensures End(RING[i], Units([CYCLE[i]])) == RING[(i + 1) % 4]
    ensures CYCLE[i].n > 0
  {
    UnitsOfRun(CYCLE[i]);
    EndOfRun(RING[i], CYCLE[i].d, CYCLE[i].n);
  }

  // ---------- the emitted records ----------

  predicate Emittable(p: FruitPath) {
    && |p.runs| <= 6 && p.corner < 4 && 0 <= p.start.0 < 0x100 && 0 <= p.start.1 < 0x100
    && forall r | r in p.runs :: r.n < 0x100
  }

  /** Sixteen bytes: start, corner, number of runs, six direction and count
      pairs. */
  function Record(p: FruitPath): (rec: seq<byte>)
    requires Emittable(p)
    ensures |rec| == 16
  {
    assert forall k | 0 <= k < |p.runs| :: p.runs[k] in p.runs;
    var runs := p.runs + seq(6 - |p.runs|, _ => Run(UP, 0));
    [p.start.0, p.start.1, p.corner, |p.runs|,
     runs[0].d, runs[0].n, runs[1].d, runs[1].n, runs[2].d, runs[2].n,
     runs[3].d, runs[3].n, runs[4].d, runs[4].n, runs[5].d, runs[5].n]
  }

  predicate WellFormed(rec: seq<byte>) {
    |rec| == 16 && rec[2] < 4 && rec[3] <= 6 && forall k: nat | k < rec[3] :: rec[4 + 2 * k] < 4
  }

  function PathOf(rec: seq<byte>): FruitPath
    requires WellFormed(rec)
  {
    FruitPath((rec[0], rec[1]), rec[2], seq(rec[3], k requires 0 <= k < rec[3] => Run(rec[4 + 2 * k], rec[5 + 2 * k])))
  }

  lemma RecordRoundTrip(p: FruitPath)
    requires Emittable(p)
    ensures WellFormed(Record(p)) && PathOf(Record(p)) == p
  {
    var rec := Record(p);
    forall k: nat | k < |p.runs| ensures rec[4 + 2 * k] == p.runs[k].d && rec[5 + 2 * k] == p.runs[k].n {
      RecordAt(p, k);
    }
    assert rec[3] == |p.runs| && rec[2] == p.corner && rec[0] == p.start.0 && rec[1] == p.start.1;
    hide Record;
    assert PathOf(rec).runs == p.runs;
  }

  lemma RecordAt(p: FruitPath, k: nat)
    requires Emittable(p) && k < |p.runs|
    ensures Record(p)[4 + 2 * k] == p.runs[k].d && Record(p)[5 + 2 * k] == p.runs[k].n
  {
    assert p.runs[k] in p.runs;
    assert k == 0 || k == 1 || k == 2 || k == 3 || k == 4 || k == 5;
  }

  /** The 16 bytes: start column and row, corner, number of runs, then direction
      and count of each. */
  lemma RecordLayout(p: FruitPath)
    requires Emittable(p)
    ensures var rec := Record(p);
            && rec[0] == p.start.0 && rec[1] == p.start.1 && rec[2] == p.corner && rec[3] == |p.runs|
            && forall k: nat | k < |p.runs| :: rec[4 + 2 * k] == p.runs[k].d && rec[5 + 2 * k] == p.runs[k].n
  {
    forall k: nat | k < |p.runs| ensures Record(p)[4 + 2 * k] == p.runs[k].d && Record(p)[5 + 2 * k] == p.runs[k].n {
      RecordAt(p, k);
    }
  }

  lemma {:induction false} WalkInMaze(l: Layout, c: Cell, u: seq<Dir>)
    requires l.Valid() && Walks(l, c, u) && u != []
    ensures InMaze(End(c, u)) && InMaze(Next(c, u[0]))
    decreases |u|
  {
    if |u| > 1 {
      WalkInMaze(l, Next(c, u[0]), u[1..]);
    }
  }

  /** No run of an accepted walk is longer than the maze. */
  lemma {:induction false} RunsFit(l: Layout, c: Cell, runs: seq<Run>)
    requires l.Valid() && Walks(l, c, Units(runs))
    ensures forall r | r in runs :: r.n <= W
    decreases |runs|
  {
    if runs != [] {
      var r := runs[0];
      var u := seq(r.n, _ => r.d);
      assert Units(runs) == u + Units(runs[1..]);
      hide Units, Walks, End, Layout.Valid;
      WalkConcat(l, c, u, Units(runs[1..]));
      RunsFit(l, End(c, u), runs[1..]);
      EndOfRun(c, r.d, r.n);
      if r.n > 0 {
        WalkInMaze(l, c, u);
        RunInside(c, r.d, r.n);
      }
      assert forall q | q in runs :: q == r || q in runs[1..];
    }
  }

  lemma RunInside(c: Cell, d: Dir, n: nat)
    requires n > 0 && InMaze(Next(c, d)) && InMaze((c.0 + n * DX(d), c.1 + n * DY(d)))
    ensures n <= W
  {
  }

  /** What the validator accepts fits the record the game reads. */
  lemma AcceptedEmits(l: Layout, p: FruitPath)
    requires l.Valid() && PathAccepted(l, p) && |p.runs| <= 6
    ensures Emittable(p)
  {
    RunsFit(l, p.start, p.runs);
  }

  // ---------- the random mouth ----------

  /** Two random bits, reduced once by the number of mouths. */
  function Pick(r: byte, mouths: nat): nat {
    if r % 4 < mouths then r % 4 else r % 4 - mouths
  }

  /** Every random byte picks an existing mouth exactly when there are two. */
  lemma PickInRange(mouths: nat)
    ensures (forall r: byte :: Pick(r, mouths) < mouths) <==> mouths >= 2
  {
    if mouths < 2 {
      assert Pick(3, mouths) >= mouths;
    }
  }

  /** With two mouths or more it is the low two bits modulo their number. */
  lemma PickIsModulo(r: byte, mouths: nat)
    requires mouths >= 2
    ensures Pick(r, mouths) == r % 4 % mouths
  {
    if r % 4 >= mouths {
      assert r % 4 - mouths < mouths;
    }
  }

  // ---------- the compiler ----------

  class RouteQueue {
    const dir: array<byte>
    const cnt: array<byte>
    var n: nat

    predicate Valid()
      reads this, dir, cnt
    {
      dir != cnt && dir.Length == cnt.Length == QUEUE && n <= QUEUE && forall k | 0 <= k < n :: dir[k] < 4
    }

    function Runs(): seq<Run>
      reads this, dir, cnt
      requires Valid()
    {
      seq(n, k requires 0 <= k < n reads this, dir, cnt requires Valid() => Run(dir[k], cnt[k]))
    }

    constructor ()
      ensures Valid() && n == 0 && fresh(dir) && fresh(cnt)
    {
      dir := new byte[QUEUE];
      cnt := new byte[QUEUE];
      n := 0;
    }

    lemma NoRuns()
      requires Valid() && n == 0
      ensures Runs() == []
    {
    }

    method Append(d: Dir, c: byte)
      requires Valid() && n < QUEUE
      modifies `n, dir, cnt
      ensures Valid() && n == old(n) + 1 && Runs() == old(Runs()) + [Run(d, c)]
    {
      dir[n] := d;
      cnt[n] := c;
      n := n + 1;
    }

    method AddPath(rec: seq<byte>)
      requires Valid() && WellFormed(rec) && n + rec[3] <= QUEUE
      modifies `n, dir, cnt
      ensures Valid() && n == old(n) + rec[3] && Runs() == old(Runs()) + PathOf(rec).runs
    {
      var k := 0;
      while k != rec[3]
        invariant 0 <= k <= rec[3] && Valid() && n == old(n) + k
        invariant Runs() == old(Runs()) + PathOf(rec).runs[..k]
        decreases rec[3] - k
      {
        Append(rec[4 + 2 * k], rec[5 + 2 * k]);
        assert PathOf(rec).runs[..k + 1] == PathOf(rec).runs[..k] + [Run(rec[4 + 2 * k], rec[5 + 2 * k])];
        k := k + 1;
      }
      assert PathOf(rec).runs[..k] == PathOf(rec).runs;
    }

    method AddCycle(i: nat)
      requires Valid() && i < 4 && n < QUEUE
      modifies `n, dir, cnt
      ensures Valid() && n == old(n) + 1 && Runs() == old(Runs()) + [CYCLE[i]]
    {
      Append(CYCLE[i].d, CYCLE[i].n);
    }

    /** Four segments from the corner, ending where they began. */
    method AddLap(corner: nat)
      requires Valid() && corner < 4 && n + 4 <= QUEUE
      modifies `n, dir, cnt
      ensures Valid() && n == old(n) + 4 && Runs() == old(Runs()) + Lap(corner)
    {
      var cyc, left := corner, 4;
      while left != 0
        invariant 0 <= left <= 4 && Valid() && n == old(n) + 4 - left && cyc == (corner + 4 - left) % 4
        invariant Runs() == old(Runs()) + Lap(corner)[..4 - left]
      {
        hide RouteQueue.Runs, Lap;
        LapAt(corner, 4 - left);
        AddCycle(cyc);
        assert Lap(corner)[..5 - left] == Lap(corner)[..4 - left] + [CYCLE[cyc]];
        cyc := (cyc + 1) % 4;
        left := left - 1;
      }
    }

    method AddAround(from: nat, to: nat)
      requires Valid() && from < 4 && to < 4 && n + |Around(from, to)| <= QUEUE
      modifies `n, dir, cnt
      ensures Valid() && n == old(n) + |Around(from, to)| && Runs() == old(Runs()) + Around(from, to)
    {
      var cyc: nat := from;
      ghost var done: seq<Run> := [];
      while cyc != to
        invariant cyc < 4 && Valid() && n + |Around(cyc, to)| == old(n) + |Around(from, to)|
        invariant Runs() == old(Runs()) + done && done + Around(cyc, to) == Around(from, to)
        decreases |Around(cyc, to)|
      {
        hide RouteQueue.Runs, Around;
        ghost var next: nat := (cyc + 1) % 4;
        AroundNext(cyc, to);
        AddCycle(cyc);
        assert done + ([CYCLE[cyc]] + Around(next, to)) == (done + [CYCLE[cyc]]) + Around(next, to);
        done := done + [CYCLE[cyc]];
        cyc := (cyc + 1) % 4;
      }
    }

    /** The record's runs last to first, directions flipped. */
    method AddPathBack(rec: seq<byte>)
      requires Valid() && WellFormed(rec) && n + rec[3] <= QUEUE
      modifies `n, dir, cnt
      ensures Valid() && n == old(n) + rec[3] && Runs() == old(Runs()) + BackRuns(PathOf(rec).runs)
    {
      ghost var runs := PathOf(rec).runs;
      var k: nat := rec[3];
      assert runs[k..] == [];
      while k != 0
        invariant 0 <= k <= rec[3] && Valid() && n == old(n) + rec[3] - k
        invariant Runs() == old(Runs()) + BackRuns(runs[k..])
      {
        k := k - 1;
        Append(Opposite(rec[4 + 2 * k]), rec[5 + 2 * k]);
        assert runs[k..][0] == runs[k] && runs[k..][1..] == runs[k + 1..];
      }
      assert runs[0..] == runs;
    }

    /** The whole route for two picked mouths; the queue never overflows. */
    method Compile(records: seq<seq<byte>>, r1: byte, r2: byte) returns (entry: nat, exit: nat)
      requires Valid() && |records| >= 2 && forall rec | rec in records :: WellFormed(rec)
      modifies this, dir, cnt
      ensures entry == Pick(r1, |records|) < |records| && exit == Pick(r2, |records|) < |records|
      ensures Valid() && n <= 19
      ensures Runs() == Route(PathOf(records[entry]), PathOf(records[exit]))
      ensures InAroundOut(Runs(), PathOf(records[entry]), PathOf(records[exit]))
    {
      PickInRange(|records|);
      entry, exit := Pick(r1, |records|), Pick(r2, |records|);
      n := 0;
      var from, to := records[entry], records[exit];
      assert from in records && to in records;
      NoRuns();
      AroundSize(from[2], to[2]);
      ghost var p, q := PathOf(from), PathOf(to);
      assert from[2] < 4 && to[2] < 4 && from[3] <= 6 && to[3] <= 6 && p.corner == from[2] && q.corner == to[2];
      hide Lap, Around, BackRuns, PathOf, RouteQueue.Runs, WellFormed, Pick, Route, InAroundOut;
      AddPath(from);
      AddLap(from[2]);
      AddAround(from[2], to[2]);
      AddPathBack(to);
      RouteParts(p, q);
      RouteGoesAround(p, q);
    }
  }

  lemma RouteParts(entry: FruitPath, exit: FruitPath)
    requires entry.corner < 4 && exit.corner < 4
    ensures [] + entry.runs + Lap(entry.corner) + Around(entry.corner, exit.corner) + BackRuns(exit.runs) ==
            Route(entry, exit)
  {
    assert [] + entry.runs == entry.runs;
  }

  /** The game reads back the path the validator saw. */
  predicate Encoded(p: FruitPath) {
    Emittable(p) && WellFormed(Record(p)) && PathOf(Record(p)) == p
  }

  /** From an accepted maze and path set to the queue: any two random bytes give
      a connected walk between two of its mouths. */
  lemma CompiledRoute(l: Layout, target: int, tolerance: int, paths: seq<FruitPath>, r1: byte, r2: byte)
    requires Accepted(l, target, tolerance) && PathsAccepted(l, paths) && |paths| >= 2
    requires forall p | p in paths :: |p.runs| <= 6
    ensures var i, j := Pick(r1, |paths|), Pick(r2, |paths|);
            && i < |paths| && j < |paths| && Encoded(paths[i]) && Encoded(paths[j])
            && Leads(l, paths[i].start, Route(paths[i], paths[j]), paths[j].start)
            && |Route(paths[i], paths[j])| <= 19 && InAroundOut(Route(paths[i], paths[j]), paths[i], paths[j])
  {
    PickInRange(|paths|);
    var i, j := Pick(r1, |paths|), Pick(r2, |paths|);
    assert paths[i] in paths && paths[j] in paths;
    AcceptedEmits(l, paths[i]);
    AcceptedEmits(l, paths[j]);
    RecordRoundTrip(paths[i]);
    RecordRoundTrip(paths[j]);
    AroundSize(paths[i].corner, paths[j].corner);
    UnitsBack(paths[j].runs);
    hide Accepted, RingAccepted, Leads, PathOf, Record, WellFormed, InAroundOut;
    RouteIsConnected(l, target, tolerance, paths[i], paths[j]);
  }
}
