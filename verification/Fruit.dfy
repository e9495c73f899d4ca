/** Fruit routes: the path sets the validator accepts, the route compiled from
    them at spawn, and the fruit that follows it. */
module FruitPaths {
  import opened Bytes
  import opened Wrappers
  import opened Maze
  import opened Validator

  datatype Run = Run(d: Dir, n: nat)

  /** A tunnel mouth linked to a corner of the ring around the house. */
  datatype FruitPath = FruitPath(start: Cell, corner: nat, runs: seq<Run>)

  const RING: seq<Cell> := [(9, 9), (18, 9), (18, 13), (9, 13)]
  const CYCLE: seq<Run> := [Run(RIGHT, 9), Run(DOWN, 4), Run(LEFT, 9), Run(UP, 4)]

  function Next(c: Cell, d: Dir): Cell {
    (c.0 + DX(d), c.1 + DY(d))
  }

  // ---------- walks, one cell at a time ----------

  function Units(runs: seq<Run>): seq<Dir> {
    if runs == [] then [] else seq(runs[0].n, _ => runs[0].d) + Units(runs[1..])
  }

  function End(c: Cell, u: seq<Dir>): Cell
    decreases |u|
  {
    if u == [] then c else End(Next(c, u[0]), u[1..])
  }

  /** Every cell stepped into is corridor. */
  predicate Walks(l: Layout, c: Cell, u: seq<Dir>)
    requires l.Valid()
    decreases |u|
  {
    u == [] || (l.Corridor(Next(c, u[0])) && Walks(l, Next(c, u[0]), u[1..]))
  }

  /** All cells of the walk, its first included. */
  function Trail(c: Cell, u: seq<Dir>): (t: seq<Cell>)
    ensures |t| == |u| + 1 && t[0] == c
    decreases |u|
  {
    if u == [] then [c] else [c] + Trail(Next(c, u[0]), u[1..])
  }

  lemma {:induction false} WalkConcat(l: Layout, c: Cell, u: seq<Dir>, v: seq<Dir>)
    requires l.Valid()
    ensures End(c, u + v) == End(End(c, u), v)
    ensures Walks(l, c, u + v) <==> Walks(l, c, u) && Walks(l, End(c, u), v)
    decreases |u|
  {
    if u == [] {
      assert u + v == v;
    } else {
      assert (u + v)[1..] == u[1..] + v;
      WalkConcat(l, Next(c, u[0]), u[1..], v);
    }
  }

  lemma {:induction false} UnitsConcat(a: seq<Run>, b: seq<Run>)
    ensures Units(a + b) == Units(a) + Units(b)
  {
    if a == [] {
      assert a + b == b;
    } else {
      assert (a + b)[1..] == a[1..] + b;
      UnitsConcat(a[1..], b);
    }
  }

  lemma {:induction false} TrailSnoc(c: Cell, u: seq<Dir>, d: Dir)
    ensures Trail(c, u)[|u|] == End(c, u)
    ensures Trail(c, u + [d]) == Trail(c, u) + [Next(End(c, u), d)]
    decreases |u|
  {
    if u == [] {
      assert u + [d] == [d] && Trail(Next(c, d), []) == [Next(c, d)];
    } else {
      assert (u + [d])[1..] == u[1..] + [d];
      TrailSnoc(Next(c, u[0]), u[1..], d);
    }
  }

  ghost predicate AllCorridor(l: Layout, cells: seq<Cell>)
    requires l.Valid()
  {
    forall c | c in cells :: l.Corridor(c)
  }

  /** A walk is free exactly when its trail past the start is corridor. */
  lemma {:induction false} WalksTrail(l: Layout, c: Cell, u: seq<Dir>)
    requires l.Valid()
    ensures Walks(l, c, u) <==> AllCorridor(l, Trail(c, u)[1..])
    decreases |u|
  {
    hide Layout.Valid, Layout.Corridor;
    if u != [] {
      var rest := Trail(Next(c, u[0]), u[1..]);
      WalksTrail(l, Next(c, u[0]), u[1..]);
      assert Trail(c, u)[1..] == rest && rest == [Next(c, u[0])] + rest[1..];
      assert Next(c, u[0]) in rest && forall x | x in rest :: x == Next(c, u[0]) || x in rest[1..];
    }
  }

  // ---------- walking back ----------

  function Back(u: seq<Dir>): seq<Dir> {
    if u == [] then [] else Back(u[1..]) + [Opposite(u[0])]
  }

  function BackRuns(runs: seq<Run>): seq<Run> {
    if runs == [] then [] else BackRuns(runs[1..]) + [Run(Opposite(runs[0].d), runs[0].n)]
  }

  function Reversed<T>(s: seq<T>): seq<T> {
    seq(|s|, i requires 0 <= i < |s| => s[|s| - 1 - i])
  }

  /** Steps in reverse order with directions flipped retrace the trail. */
  lemma {:induction false} BackTrail(c: Cell, u: seq<Dir>)
    ensures |Back(u)| == |u| && Trail(End(c, u), Back(u)) == Reversed(Trail(c, u))
    ensures End(End(c, u), Back(u)) == c
    decreases |u|
  {
    if u != [] {
      var n, e := Next(c, u[0]), End(c, u);
      BackTrail(n, u[1..]);
      TrailSnoc(e, Back(u[1..]), Opposite(u[0]));
      assert Next(n, Opposite(u[0])) == c;
      assert Reversed(Trail(c, u)) == Reversed(Trail(n, u[1..])) + [c];
      TrailSnoc(e, Back(u), UP);
    }
  }

  /** Reversing the runs and flipping their directions undoes a walk, over the
      same cells. */
  lemma BackWalks(l: Layout, c: Cell, u: seq<Dir>)
    requires l.Valid() && l.Corridor(c) && Walks(l, c, u)
    ensures Walks(l, End(c, u), Back(u)) && End(End(c, u), Back(u)) == c
  {
    BackTrail(c, u);
    WalksTrail(l, c, u);
    WalksTrail(l, End(c, u), Back(u));
    var t := Trail(c, u);
    hide Layout.Valid, Layout.Corridor, Trail;
    assert t == [c] + t[1..];
    assert forall x | x in Reversed(t) :: x in t;
  }

  lemma BackConcat(u: seq<Dir>, v: seq<Dir>)
    ensures Back(u + v) == Back(v) + Back(u)
  {
    if u == [] {
      assert u + v == v;
    } else {
      assert (u + v)[1..] == u[1..] + v;
      BackConcat(u[1..], v);
    }
  }

  lemma BackRepeat(d: Dir, n: nat)
    ensures Back(seq(n, _ => d)) == seq(n, _ => Opposite(d))
  {
    if n > 0 {
      assert seq(n, _ => d)[1..] == seq(n - 1, _ => d);
      BackRepeat(d, n - 1);
    }
  }

  lemma {:induction false} UnitsBack(runs: seq<Run>)
    ensures |BackRuns(runs)| == |runs| && Units(BackRuns(runs)) == Back(Units(runs))
  {
    if runs != [] {
      var r := runs[0];
      UnitsBack(runs[1..]);
      UnitsConcat(BackRuns(runs[1..]), [Run(Opposite(r.d), r.n)]);
      assert Units([Run(Opposite(r.d), r.n)]) == seq(r.n, _ => Opposite(r.d)) + Units([]);
      BackRepeat(r.d, r.n);
      BackConcat(seq(r.n, _ => r.d), Units(runs[1..]));
    }
  }

  // ---------- the validator ----------

  /** The end of the walk, or the first cell that is not corridor. */
  method Walk(l: Layout, pos: Cell, runs: seq<Run>) returns (r: Result<Cell, Cell>)
    requires l.Valid()
    ensures r.Success? <==> Walks(l, pos, Units(runs))
    ensures r.Success? ==> r.value == End(pos, Units(runs))
  {
    var c := pos;
    for i := 0 to |runs|
      invariant Walks(l, pos, Units(runs[..i])) && c == End(pos, Units(runs[..i]))
    {
      var run := runs[i];
      ghost var done := Units(runs[..i]);
      RunSplits(runs, i);
      for k := 0 to run.n
        invariant Walks(l, pos, done + seq(k, _ => run.d)) && c == End(pos, done + seq(k, _ => run.d))
      {
        var n := Next(c, run.d);
        StepSplits(l, pos, done, run, k);
        if !l.Corridor(n) {
          WalkConcat(l, pos, done + seq(run.n, _ => run.d), Units(runs[i + 1..]));
          return Failure(n);
        }
        c := n;
      }
    }
    assert runs[..|runs|] == runs;
    return Success(c);
  }

  lemma RunSplits(runs: seq<Run>, i: nat)
    requires i < |runs|
    ensures Units(runs[..i + 1]) == Units(runs[..i]) + seq(runs[i].n, _ => runs[i].d)
    ensures Units(runs) == (Units(runs[..i]) + seq(runs[i].n, _ => runs[i].d)) + Units(runs[i + 1..])
    ensures Units(runs[..i]) + [] == Units(runs[..i])
    ensures seq(0, _ => runs[i].d) == []
  {
    assert runs[..i + 1] == runs[..i] + [runs[i]];
    UnitsConcat(runs[..i], [runs[i]]);
    assert Units([runs[i]]) == seq(runs[i].n, _ => runs[i].d) + Units([]);
    assert runs == runs[..i + 1] + runs[i + 1..];
    UnitsConcat(runs[..i + 1], runs[i + 1..]);
  }

  /** One more cell of a run, and what its failure means for the whole run. */
  lemma StepSplits(l: Layout, pos: Cell, done: seq<Dir>, run: Run, k: nat)
    requires l.Valid() && k < run.n && Walks(l, pos, done + seq(k, _ => run.d))
    ensures var n := Next(End(pos, done + seq(k, _ => run.d)), run.d);
            && End(pos, done + seq(k + 1, _ => run.d)) == n
            && (Walks(l, pos, done + seq(k + 1, _ => run.d)) <==> l.Corridor(n))
            && (!l.Corridor(n) ==> !Walks(l, pos, done + seq(run.n, _ => run.d)))
  {
    var u := done + seq(k, _ => run.d);
    assert done + seq(k + 1, _ => run.d) == u + [run.d];
    WalkConcat(l, pos, u, [run.d]);
    var rest := seq(run.n - k, _ => run.d);
    assert done + seq(run.n, _ => run.d) == u + rest;
    WalkConcat(l, pos, u, rest);
    assert rest[0] == run.d;
  }

  ghost predicate PathAccepted(l: Layout, p: FruitPath)
    requires l.Valid()
  {
    && p.corner < 4
    && p.start.1 in l.tunnels && (p.start.0 == 0 || p.start.0 == W - 1)
    && Walks(l, p.start, Units(p.runs)) && End(p.start, Units(p.runs)) == RING[p.corner]
  }

  ghost predicate SegmentAccepted(l: Layout, i: nat)
    requires l.Valid() && i < 4
  {
    Walks(l, RING[i], Units([CYCLE[i]])) && End(RING[i], Units([CYCLE[i]])) == RING[(i + 1) % 4]
  }

  ghost predicate RingAccepted(l: Layout)
    requires l.Valid()
  {
    forall i | 0 <= i < 4 :: SegmentAccepted(l, i)
  }

  /** A maze without paths has no fruit; otherwise each path joins a mouth to
      its corner, and the ring closes. */
  ghost predicate PathsAccepted(l: Layout, paths: seq<FruitPath>)
    requires l.Valid()
  {
    paths == [] || ((forall p | p in paths :: PathAccepted(l, p)) && RingAccepted(l))
  }

  method ValidateFruitPaths(l: Layout, paths: seq<FruitPath>) returns (ok: bool)
    requires l.Valid() && forall p | p in paths :: p.corner < 4
    ensures ok <==> PathsAccepted(l, paths)
  {
    hide Layout.Valid, Walks, End, Units;
    if paths == [] {
      return true;
    }
    for i := 0 to |paths|
      invariant forall k | 0 <= k < i :: PathAccepted(l, paths[k])
    {
      var p := paths[i];
      if p.start.1 !in l.tunnels || (p.start.0 != 0 && p.start.0 != W - 1) {
        assert !PathAccepted(l, p);
        return false;
      }
      var r := Walk(l, p.start, p.runs);
      if r.Failure? || r.value != RING[p.corner] {
        assert !PathAccepted(l, p);
        return false;
      }
    }
    for i := 0 to 4
      invariant forall k | 0 <= k < i :: SegmentAccepted(l, k)
    {
      var r := Walk(l, RING[i], [CYCLE[i]]);
      if r.Failure? || r.value != RING[(i + 1) % 4] {
        assert !SegmentAccepted(l, i);
        return false;
      }
    }
    return true;
  }
}
