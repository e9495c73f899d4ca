/** The march of the invaders: one live alien moves per tick, and direction and
    drop latch when a sweep wraps. */
module March {
  import opened Bytes
  import opened Wrappers

  const N := 55
  const BASEROW := 23

  /** One alien's entries in the parallel arrays. */
  datatype Alien = Alien(alive: bool, x: byte, y: byte)

  function Row(i: nat): nat {
    i / 11
  }

  function Col(i: nat): nat {
    i % 11
  }

  // ---------- counting the living ----------

  function Living(rack: seq<Alien>, n: nat): (c: nat)
    requires n <= |rack|
    ensures c <= n
  {
    if n == 0 then 0 else Living(rack, n - 1) + (if rack[n - 1].alive then 1 else 0)
  }

  lemma {:induction false} LivingUpTo(rack: seq<Alien>, m: nat, n: nat)
    requires m <= n <= |rack| && forall i | m <= i < n :: !rack[i].alive
    ensures Living(rack, n) == Living(rack, m)
  {
    if m < n {
      LivingUpTo(rack, m, n - 1);
    }
  }

  lemma {:induction false} LivingAfter(rack: seq<Alien>, k: nat, a: Alien, n: nat)
    requires n <= |rack| && k < |rack|
    ensures Living(rack[k := a], n) == Living(rack, n)
            + if k < n && a.alive != rack[k].alive then (if a.alive then 1 else -1) else 0
  {
    if n > 0 {
      LivingAfter(rack, k, a, n - 1);
    }
  }

  // ---------- the formation ----------

  function Step(mdx: byte): int {
    if mdx == 1 then 1 else -1
  }

  /** Every live alien stands in its rank and file from one origin, displaced by
      this sweep's move exactly when the cursor has passed it. */
  ghost predicate Rigid(rack: seq<Alien>, mcur: nat, dx: int, drop: bool, ox: int, oy: int) {
    && |rack| == N
    && forall i | 0 <= i < N && rack[i].alive :: InRank(rack[i], i, i < mcur, dx, drop, ox, oy)
  }

  predicate InRank(a: Alien, i: nat, moved: bool, dx: int, drop: bool, ox: int, oy: int) {
    && a.x == ox + 2 * Col(i) + (if moved && !drop then dx else 0)
    && a.y == oy + Row(i) + (if moved && drop then 1 else 0)
  }

  /** On screen, with room for the step still due; whoever moved onto an edge
      has raised the flag. */
  predicate OnScreen(a: Alien, moved: bool, dx: int, drop: bool, edge: bool) {
    && 0 <= a.x <= 39
    && (if moved && !drop then (a.x == 0 || a.x == 39 ==> edge) else 0 <= a.x + dx <= 39)
  }

  ghost predicate InBounds(rack: seq<Alien>, mcur: nat, dx: int, drop: bool, edge: bool, ox: int) {
    && |rack| == N
    && (forall i | 0 <= i < N && rack[i].alive :: OnScreen(rack[i], i < mcur, dx, drop, edge))
    && (drop ==> !edge)
    && (edge ==> if dx == 1 then ox >= 18 else ox <= 1)
  }

  /** No row reaches the baseline unnoticed. */
  ghost predicate Landed(rack: seq<Alien>, invaded: bool) {
    forall i | 0 <= i < |rack| && rack[i].alive && rack[i].y >= BASEROW :: invaded
  }

  // ---------- one step of the formation, on values ----------

  function Marched(a: Alien, mdx: byte, drop: bool): Alien {
    if drop then a.(y := (a.y + 1) % 0x100) else a.(x := (a.x + mdx) % 0x100)
  }

  lemma MoveKeepsRank(a: Alien, i: nat, mdx: byte, drop: bool, edge: bool, ox: int, oy: int)
    requires i < N && (mdx == 1 || mdx == 0xFF) && a.y < BASEROW
    requires InRank(a, i, false, Step(mdx), drop, ox, oy) && OnScreen(a, false, Step(mdx), drop, edge)
    requires edge ==> !drop
    ensures var b := Marched(a, mdx, drop);
            var e := edge || (!drop && (b.x == 0 || b.x == 39));
            && InRank(b, i, true, Step(mdx), drop, ox, oy) && OnScreen(b, true, Step(mdx), drop, e)
            && (e && !edge ==> if Step(mdx) == 1 then ox >= 18 else ox <= 1)
  {
  }

  lemma AdvanceKeeps(rack: seq<Alien>, mcur: nat, k: nat, mdx: byte, drop: bool, edge: bool, ox: int, oy: int)
    requires Rigid(rack, mcur, Step(mdx), drop, ox, oy) && InBounds(rack, mcur, Step(mdx), drop, edge, ox)
    requires mcur <= k < N && rack[k].alive && (mdx == 1 || mdx == 0xFF) && rack[k].y < BASEROW
    requires forall i | mcur <= i < k :: !rack[i].alive
    ensures var b := Marched(rack[k], mdx, drop);
            var e := edge || (!drop && (b.x == 0 || b.x == 39));
            Rigid(rack[k := b], k + 1, Step(mdx), drop, ox, oy) && InBounds(rack[k := b], k + 1, Step(mdx), drop, e, ox)
  {
    MoveKeepsRank(rack[k], k, mdx, drop, edge, ox, oy);
    hide Marched, Col, Row;
  }

  /** At the wrap the whole formation has moved by one step, and the latched
      direction leaves it room for the next. */
  lemma WrapKeeps(rack: seq<Alien>, mcur: nat, mdx: byte, drop: bool, edge: bool, ox: int, oy: int)
    requires Rigid(rack, mcur, Step(mdx), drop, ox, oy) && InBounds(rack, mcur, Step(mdx), drop, edge, ox)
    requires mcur <= N && (mdx == 1 || mdx == 0xFF) && forall i | mcur <= i < N :: !rack[i].alive
    ensures var ox2, oy2 := if drop then ox else ox + Step(mdx), if drop then oy + 1 else oy;
            var mdx2: byte := if edge then (0x100 - mdx) % 0x100 else mdx;
            && (mdx2 == 1 || mdx2 == 0xFF)
            && Rigid(rack, 0, Step(mdx2), edge, ox2, oy2) && InBounds(rack, 0, Step(mdx2), edge, false, ox2)
  {
  }

  lemma {:induction false} AllLiving(rack: seq<Alien>, n: nat)
    requires n <= |rack| && forall i | 0 <= i < n :: rack[i].alive
    ensures Living(rack, n) == n
  {
    if n > 0 {
      AllLiving(rack, n - 1);
    }
  }

  lemma LandedRow(rack: seq<Alien>, k: nat)
    requires Landed(rack, false) && k < |rack| && rack[k].alive
    ensures rack[k].y < BASEROW
  {
  }

  lemma LandedMove(rack: seq<Alien>, k: nat, mdx: byte, drop: bool)
    requires Landed(rack, false) && k < |rack| && rack[k].alive
    ensures var a := Marched(rack[k], mdx, drop); Landed(rack[k := a], drop && a.y >= BASEROW) && a.alive
  {
  }

  lemma KillKeeps(rack: seq<Alien>, k: nat, a: Alien, mcur: nat, dx: int, drop: bool, edge: bool, invaded: bool,
                  ox: int, oy: int)
    requires Rigid(rack, mcur, dx, drop, ox, oy) && InBounds(rack, mcur, dx, drop, edge, ox) && Landed(rack, invaded)
    requires k < N && !a.alive
    ensures Rigid(rack[k := a], mcur, dx, drop, ox, oy) && InBounds(rack[k := a], mcur, dx, drop, edge, ox)
    ensures Landed(rack[k := a], invaded)
  {
    hide InRank, OnScreen;
  }

  // ---------- the rack ----------

  /** Top row of a wave's formation: 4 plus the wave number less one, by
      repeated subtraction of 9. */
  method FormTop(wave: byte) returns (top: byte)
    ensures top == 4 + (wave - 1) % 0x100 % 9 && 4 <= top <= 12
  {
    var a: byte := (wave - 1) % 0x100;
    while a >= 9
      invariant a % 9 == (wave - 1) % 0x100 % 9
    {
      a := a - 9;
    }
    top := a + 4;
  }

  // ---------- where bombs come from ----------

  /** The live alien with none alive below it in its column. */
  ghost predicate Lowest(rack: seq<Alien>, col: nat, i: nat) {
    && |rack| == N && i < N && Col(i) == col && rack[i].alive
    && forall j | i < j < N && Col(j) == col :: !rack[j].alive
  }

  lemma ColumnIndices(col: nat)
    requires col < 11
    ensures forall i: nat | i < N :: Col(i) == col <==> exists r: nat :: r < 5 && i == 11 * r + col
    ensures forall i: nat | i < N :: i == 11 * Row(i) + Col(i) && Row(i) < 5
  {
    forall i: nat | i < N ensures Col(i) == col <==> exists r: nat :: r < 5 && i == 11 * r + col {
      if Col(i) == col {
        assert Row(i) < 5 && i == 11 * Row(i) + col;
      }
    }
  }

  lemma LowestUnique(rack: seq<Alien>, col: nat)
    ensures forall i: nat, j: nat | Lowest(rack, col, i) && Lowest(rack, col, j) :: i == j
  {
  }

  lemma LowestIs(rack: seq<Alien>, col: nat, i: nat)
    requires Lowest(rack, col, i)
    ensures i < N == |rack| && Col(i) == col && rack[i].alive
  {
  }

  lemma NoLowest(rack: seq<Alien>, col: nat)
    requires |rack| == N && forall i | 0 <= i < N && Col(i) == col :: !rack[i].alive
    ensures forall i: nat :: !Lowest(rack, col, i)
  {
  }

  lemma {:induction false} LowestFrom(rack: seq<Alien>, i: nat) returns (low: nat)
    requires |rack| == N && i < N && rack[i].alive
    ensures Lowest(rack, Col(i), low)
    decreases N - i
  {
    if j: nat :| i < j < N && Col(j) == Col(i) && rack[j].alive {
      low := LowestFrom(rack, j);
    } else {
      low := i;
    }
  }

  lemma LiveHasLowest(rack: seq<Alien>)
    requires |rack| == N
    ensures (exists i :: 0 <= i < N && rack[i].alive) ==> exists c: nat, i: nat :: c < 11 && Lowest(rack, c, i)
  {
    if i: nat :| i < N && rack[i].alive {
      var low := LowestFrom(rack, i);
      assert Lowest(rack, Col(i), low);
    }
  }

  /** How far a column is from the muzzle. */
  function Gap(x: byte, basex: byte): nat {
    if x >= basex + 1 then x - (basex + 1) else basex + 1 - x
  }

  /** The same by complement and add with carry. */
  method GapByte(x: byte, basex: byte) returns (gap: byte)
    requires basex < 0xFF
    ensures gap == Gap(x, basex)
  {
    var sum: int := 0xFF - (basex + 1) + x + 1;
    gap := sum % 0x100;
    if sum < 0x100 {
      gap := 0xFF - gap + 1;
    }
  }

  // ---------- ticks and shots, on values ----------

  datatype Deed = Tick | Shot(x: byte, y: byte)

  /** The march at one moment. */
  datatype Stand = Stand(rack: seq<Alien>, mcur: nat, mdx: byte, drop: bool, edge: bool, sweep: bool, invaded: bool,
                         aliveN: int)

  /** The first live alien from an index on; N when there is none. */
  function NextLive(rack: seq<Alien>, from: nat): (k: nat)
    requires from <= |rack|
    ensures from <= k <= |rack| && (k < |rack| ==> rack[k].alive) && forall i | from <= i < k :: !rack[i].alive
    decreases |rack| - from
  {
    if from == |rack| || rack[from].alive then from else NextLive(rack, from + 1)
  }

  /** The last live alien on a cell among the first n, if any. */
  function TopAt(rack: seq<Alien>, x: byte, y: byte, n: nat): (k: Option<nat>)
    requires n <= |rack|
    ensures k.Some? ==> k.value < n && rack[k.value] == Alien(true, x, y)
    ensures forall i | (if k.Some? then k.value + 1 else 0) <= i < n :: rack[i] != Alien(true, x, y)
  {
    if n == 0 then None else if rack[n - 1] == Alien(true, x, y) then Some(n - 1) else TopAt(rack, x, y, n - 1)
  }

  /** One tick: the next live alien moves, or the sweep wraps and latches
      direction and drop. */
  function Ticked(s: Stand): Stand
    requires s.mcur <= |s.rack|
  {
    var k := NextLive(s.rack, s.mcur);
    if k == |s.rack| then
      s.(mcur := 0, sweep := !s.sweep, edge := false, drop := s.edge,
         mdx := if s.edge then (0x100 - s.mdx) % 0x100 else s.mdx)
    else
      var a := Marched(s.rack[k], s.mdx, s.drop);
      s.(rack := s.rack[k := a], mcur := k + 1,
         edge := s.edge || (!s.drop && (a.x == 0 || a.x == 39)), invaded := s.drop && a.y >= BASEROW)
  }

  /** A tick, in so many words: alien k, the first alive from the cursor on, goes one
      down in a dropping sweep, else one to the side; reaching column 0 or 39 raises
      the flag, reaching row 23 ends it. */
  ghost predicate Steps(s: Stand, k: nat, t: Stand) {
    && s.mcur <= k < |s.rack| == |t.rack| && s.rack[k].alive && (forall i | s.mcur <= i < k :: !s.rack[i].alive)
    && (forall i | 0 <= i < |s.rack| && i != k :: t.rack[i] == s.rack[i])
    && t.rack[k] == (if s.drop then Alien(true, s.rack[k].x, (s.rack[k].y + 1) % 256)
                     else Alien(true, (s.rack[k].x + if s.mdx == 1 then 1 else 255) % 256, s.rack[k].y))
    && t.edge == (s.edge || (!s.drop && t.rack[k].x in {0, 39}))
    && t.invaded == (s.drop && t.rack[k].y >= 23)
    && t == s.(rack := t.rack, mcur := k + 1, edge := t.edge, invaded := t.invaded)
  }

  /** With nobody left before the cursor a new sweep begins: after an edge it drops
      and the next goes the other way. */
  ghost predicate Wraps(s: Stand, t: Stand) {
    && s.mcur <= |s.rack| && (forall i | s.mcur <= i < |s.rack| :: !s.rack[i].alive)
    && t == s.(mcur := 0, sweep := !s.sweep, edge := false, drop := s.edge,
               mdx := if s.edge then (if s.mdx == 1 then 255 else 1) else s.mdx)
  }

  lemma TickedSays(s: Stand)
    requires s.mcur <= |s.rack| && (s.mdx == 1 || s.mdx == 255)
    ensures Wraps(s, Ticked(s)) || exists k: nat :: Steps(s, k, Ticked(s))
  {
    var k := NextLive(s.rack, s.mcur);
    assert k < |s.rack| ==> Steps(s, k, Ticked(s));
  }

  /** A kill, at any tick: the alien leaves the formation as it is. */
  function ShotAt(s: Stand, x: byte, y: byte): Stand {
    var k := TopAt(s.rack, x, y, |s.rack|);
    if k.None? then s else s.(rack := s.rack[k.value := Alien(false, x, y)], aliveN := s.aliveN - 1)
  }

  /** A landed wave marches no more. */
  function After(deed: Deed, s: Stand): (t: Stand)
    requires s.mcur <= |s.rack|
    ensures t.mcur <= |t.rack| == |s.rack|
  {
    match deed
    case Tick => if s.invaded then s else Ticked(s)
    case Shot(x, y) => ShotAt(s, x, y)
  }

  function AfterAll(script: seq<Deed>, s: Stand): (t: Stand)
    requires s.mcur <= |s.rack|
    ensures t.mcur <= |t.rack| == |s.rack|
  {
    if script == [] then s else After(script[|script| - 1], AfterAll(script[..|script| - 1], s))
  }

  // ---------- what a sweep costs ----------

  function Ticks(script: seq<Deed>): nat {
    if script == [] then 0 else Ticks(script[..|script| - 1]) + (if script[|script| - 1].Tick? then 1 else 0)
  }

  /** The aliens shot after the cursor had passed them. */
  function LostBehind(script: seq<Deed>, s: Stand): nat
    requires s.mcur <= |s.rack|
  {
    if script == [] then 0
    else
      var front, last := script[..|script| - 1], script[|script| - 1];
      var t := AfterAll(front, s);
      LostBehind(front, s)
      + (if last.Shot? && var k := TopAt(t.rack, last.x, last.y, |t.rack|); k.Some? && k.value < t.mcur then 1 else 0)
  }

  /** Every tick of the script moves an alien: no wrap, no landing before it. */
  ghost predicate OneSweep(script: seq<Deed>, s: Stand)
    requires s.mcur <= |s.rack|
  {
    forall k: nat | k < |script| && script[k].Tick? ::
      var t := AfterAll(script[..k], s); !t.invaded && NextLive(t.rack, t.mcur) < |t.rack|
  }

  /** How far a sweep has got: whoever is left behind the cursor has moved by
      one step and whoever is left before it by none; nobody, dead or alive, has
      moved twice. */
  ghost predicate Swept(s: Stand, t: Stand) {
    && |t.rack| == |s.rack| && t.mcur <= |t.rack| && t.mdx == s.mdx && t.drop == s.drop
    && forall i | 0 <= i < |t.rack| ::
         && (t.rack[i].alive ==>
               s.rack[i].alive && t.rack[i] == if i < t.mcur then Marched(s.rack[i], s.mdx, s.drop) else s.rack[i])
         && (t.rack[i] == s.rack[i] || t.rack[i] == s.rack[i].(alive := false)
             || t.rack[i] == Marched(s.rack[i], s.mdx, s.drop)
             || t.rack[i] == Marched(s.rack[i], s.mdx, s.drop).(alive := false))
  }

  lemma OneSweepFront(script: seq<Deed>, s: Stand)
    requires s.mcur <= |s.rack| && script != [] && OneSweep(script, s)
    ensures OneSweep(script[..|script| - 1], s)
  {
    var front := script[..|script| - 1];
    forall k: nat | k < |front| && front[k].Tick?
      ensures var t := AfterAll(front[..k], s); !t.invaded && NextLive(t.rack, t.mcur) < |t.rack|
    {
      assert front[..k] == script[..k];
    }
  }

  lemma TickSweeps(s: Stand, t: Stand)
    requires Swept(s, t) && NextLive(t.rack, t.mcur) < |t.rack|
    ensures Swept(s, Ticked(t)) && Living(Ticked(t).rack, Ticked(t).mcur) == Living(t.rack, t.mcur) + 1
  {
    var k := NextLive(t.rack, t.mcur);
    LivingUpTo(t.rack, t.mcur, k);
    LivingAfter(t.rack, k, Marched(t.rack[k], t.mdx, t.drop), k);
    hide NextLive;
  }

  lemma ShotSweeps(s: Stand, t: Stand, x: byte, y: byte)
    requires Swept(s, t)
    ensures var k := TopAt(t.rack, x, y, |t.rack|);
            && Swept(s, ShotAt(t, x, y))
            && Living(ShotAt(t, x, y).rack, t.mcur)
               == Living(t.rack, t.mcur) - (if k.Some? && k.value < t.mcur then 1 else 0)
  {
    var k := TopAt(t.rack, x, y, |t.rack|);
    if k.Some? {
      LivingAfter(t.rack, k.value, Alien(false, x, y), t.mcur);
    }
    hide TopAt;
  }

  /** Part of a sweep under fire. */
  lemma {:induction false} SweepSoFar(script: seq<Deed>, s: Stand)
    requires s.mcur == 0 && OneSweep(script, s)
    ensures Swept(s, AfterAll(script, s))
    ensures Ticks(script) == Living(AfterAll(script, s).rack, AfterAll(script, s).mcur) + LostBehind(script, s)
  {
    if script != [] {
      var front, last := script[..|script| - 1], script[|script| - 1];
      OneSweepFront(script, s);
      SweepSoFar(front, s);
      var t := AfterAll(front, s);
      if last.Tick? {
        assert !t.invaded && NextLive(t.rack, t.mcur) < |t.rack|;
        TickSweeps(s, t);
      } else {
        ShotSweeps(s, t, last.x, last.y);
      }
    }
  }

  /** Emergent speed-up, under kills at any ticks.  When the cursor has passed
      every live alien, so that the next tick wraps, every survivor has moved by
      exactly one step and nobody twice; the ticks it took are the survivors and
      those shot after their move. */
  lemma SweepCost(script: seq<Deed>, s: Stand)
    requires s.mcur == 0 && OneSweep(script, s)
    requires NextLive(AfterAll(script, s).rack, AfterAll(script, s).mcur) == |s.rack|
    ensures var t := AfterAll(script, s);
            && Ticks(script) == Living(t.rack, |t.rack|) + LostBehind(script, s)
            && (forall i | 0 <= i < |t.rack| && t.rack[i].alive :: t.rack[i] == Marched(s.rack[i], s.mdx, s.drop))
            && Swept(s, t) && Ticked(t).mcur == 0
  {
    SweepSoFar(script, s);
    var t := AfterAll(script, s);
    LivingUpTo(t.rack, t.mcur, |t.rack|);
    hide AfterAll, OneSweep, Ticks, LostBehind;
  }

  /** Without kills a sweep costs exactly one tick per live alien, and one more to
      wrap; the whole formation has moved by one step. */
  lemma Sweep(script: seq<Deed>, s: Stand)
    requires s.mcur == 0 && OneSweep(script, s) && forall d | d in script :: d.Tick?
    requires NextLive(AfterAll(script, s).rack, AfterAll(script, s).mcur) == |s.rack|
    ensures |script| == Living(s.rack, |s.rack|)
    ensures AfterAll(script, s).rack == MarchedAll(s)
  {
    SweepCost(script, s);
    TicksOnly(script, s);
    var t := AfterAll(script, s);
    SameLiving(s.rack, t.rack, |s.rack|);
    hide AfterAll, OneSweep, Ticks, LostBehind, NextLive;
  }

  function MarchedAll(s: Stand): seq<Alien> {
    seq(|s.rack|, i requires 0 <= i < |s.rack| =>
      if s.rack[i].alive then Marched(s.rack[i], s.mdx, s.drop) else s.rack[i])
  }

  lemma {:induction false} TicksOnly(script: seq<Deed>, s: Stand)
    requires s.mcur <= |s.rack| && forall d | d in script :: d.Tick?
    ensures Ticks(script) == |script| && LostBehind(script, s) == 0
    ensures var t := AfterAll(script, s); forall i | 0 <= i < |s.rack| ::
              t.rack[i].alive == s.rack[i].alive && (!s.rack[i].alive ==> t.rack[i] == s.rack[i])
  {
    if script != [] {
      TicksOnly(script[..|script| - 1], s);
      assert script[|script| - 1] in script;
    }
  }

  lemma {:induction false} SameLiving(a: seq<Alien>, b: seq<Alien>, n: nat)
    requires n <= |a| == |b| && forall i | 0 <= i < n :: a[i].alive == b[i].alive
    ensures Living(a, n) == Living(b, n)
  {
    if n > 0 {
      SameLiving(a, b, n - 1);
    }
  }

  class Rack {
    const rack: array<Alien>
    var mcur: nat
    var mdx: byte
    var drop: bool
    var edge: bool
    var sweep: bool
    var invaded: bool
    var aliveN: nat
    ghost var ox: int
    ghost var oy: int

    ghost predicate Valid()
      reads this, rack
    {
      && rack.Length == N && mcur <= N && (mdx == 1 || mdx == 0xFF)
      && Rigid(rack[..], mcur, Step(mdx), drop, ox, oy)
      && InBounds(rack[..], mcur, Step(mdx), drop, edge, ox)
      && Landed(rack[..], invaded)
      && aliveN == Living(rack[..], N)
    }

    /** A fresh wave: all 55 in formation, marching right. */
    constructor (wave: byte)
      ensures Valid() && aliveN == N && !invaded && mcur == 0 && Step(mdx) == 1 && !drop
      ensures forall i | 0 <= i < N ::
                rack[i].alive && rack[i].x == 9 + 2 * (i % 11) && rack[i].y == 4 + (wave - 1) % 0x100 % 9 + i / 11
    {
      var top := FormTop(wave);
      rack := new Alien[N](i requires 0 <= i < N => Alien(true, 2 * Col(i) + 9, Row(i) + top));
      mcur, mdx, drop, edge, sweep, invaded, aliveN := 0, 1, false, false, false, false, N;
      ox, oy := 9, top;
      new;
      AllLiving(rack[..], N);
    }

    ghost function Now(): Stand
      reads this, rack
    {
      Stand(rack[..], mcur, mdx, drop, edge, sweep, invaded, aliveN)
    }

    /** One tick of the march: the next live alien moves, or the sweep wraps and
        latches direction and drop. */
    method March()
      requires Valid() && !invaded
      modifies this, rack
      ensures Valid() && Now() == Ticked(old(Now()))
      ensures Wraps(old(Now()), Now()) || exists k: nat :: Steps(old(Now()), k, Now())
    {
      TickedSays(Now());
      hide Rigid, InBounds, Landed, Living, Marched, Wraps, Steps;
      var k := mcur;
      while k < N && !rack[k].alive
        invariant mcur <= k <= N && NextLive(rack[..], k) == NextLive(rack[..], mcur)
        invariant forall i | mcur <= i < k :: !rack[i].alive
      {
        k := k + 1;
      }
      assert k == NextLive(rack[..], mcur);
      if k == N {
        Wrap();
      } else {
        Move(k);
      }
    }

    method Wrap()
      requires Valid() && !invaded && NextLive(rack[..], mcur) == N
      modifies this
      ensures Valid() && Now() == Ticked(old(Now()))
    {
      WrapKeeps(rack[..], mcur, mdx, drop, edge, ox, oy);
      assert |rack[..]| == N;
      hide Rigid, InBounds, Landed, Living, Step, NextLive, Marched, InRank, OnScreen, Row, Col;
      ox, oy := if drop then ox else ox + Step(mdx), if drop then oy + 1 else oy;
      mcur := 0;
      sweep := !sweep;
      if edge {
        edge, drop := false, true;
        mdx := (0x100 - mdx) % 0x100;
      } else {
        drop := false;
      }
    }

    method Move(k: nat)
      requires Valid() && !invaded && k == NextLive(rack[..], mcur) < N
      modifies this, rack
      ensures Valid() && Now() == Ticked(old(Now()))
    {
      ghost var was := rack[..];
      var a := Marched(rack[k], mdx, drop);
      LandedRow(was, k);
      AdvanceKeeps(was, mcur, k, mdx, drop, edge, ox, oy);
      LivingAfter(was, k, a, N);
      LandedMove(was, k, mdx, drop);
      hide Rigid, InBounds, Landed, Living, NextLive;
      rack[k] := a;
      assert rack[..] == was[k := a];
      if drop {
        if a.y >= BASEROW {
          invaded := true;
        }
      } else if a.x == 0 || a.x == 39 {
        edge := true;
      }
      mcur := k + 1;
    }

    /** A kill: the alien leaves the formation as it is. */
    method Kill(k: nat)
      requires Valid() && k < N && rack[k].alive
      modifies this, rack
      ensures Valid()
      ensures var s := old(Now());
              Now() == s.(rack := s.rack[k := old(rack[k]).(alive := false)], aliveN := s.aliveN - 1)
    {
      ghost var was := rack[..];
      var a := rack[k].(alive := false);
      LivingAfter(was, k, a, N);
      KillKeeps(was, k, a, mcur, Step(mdx), drop, edge, invaded, ox, oy);
      hide Rigid, InBounds, Landed, Living;
      rack[k] := a;
      assert rack[..] == was[k := a];
      aliveN := aliveN - 1;
    }

    /** A shot at a cell kills the highest-numbered live alien there, if any. */
    method Shoot(x: byte, y: byte) returns (hit: Option<nat>)
      requires Valid()
      modifies this, rack
      ensures Valid() && Now() == ShotAt(old(Now()), x, y) && hit == TopAt(old(rack[..]), x, y, N)
    {
      hide Rigid, InBounds, Landed, Living;
      var k: nat := N;
      while k > 0
        invariant k <= N && TopAt(rack[..], x, y, N) == TopAt(rack[..], x, y, k)
      {
        k := k - 1;
        if rack[k].alive && rack[k].x == x && rack[k].y == y {
          Kill(k);
          return Some(k);
        }
      }
      return None;
    }

    /** The lowest live alien of a column, searched from the bottom row up. */
    method LowCol(col: nat) returns (low: Option<nat>)
      requires rack.Length == N && col < 11
      ensures low.None? <==> forall i | 0 <= i < N && Col(i) == col :: !rack[i].alive
      ensures low.Some? ==> Lowest(rack[..], col, low.value)
      ensures low.None? ==> forall r: nat | r < 5 :: !rack[11 * r + col].alive
      ensures low.Some? ==> low.value < N && rack[low.value].alive && low.value % 11 == col
                            && forall r: nat | low.value < 11 * r + col < N :: !rack[11 * r + col].alive
    {
      var row: nat := 5;
      while row > 0
        invariant row <= 5 && forall r: nat | row <= r < 5 :: !rack[11 * r + col].alive
      {
        row := row - 1;
        if rack[11 * row + col].alive {
          ColumnIndices(col);
          return Some(11 * row + col);
        }
      }
      ColumnIndices(col);
      return None;
    }

    /** A wiggly bomb falls from the live column nearest to the muzzle; of two
        equally near, from the one further right. */
    method Aim(basex: byte) returns (best: Option<nat>)
      requires rack.Length == N && basex <= 37 && forall i | 0 <= i < N && rack[i].alive :: rack[i].x <= 39
      ensures best.None? <==> forall i | 0 <= i < N :: !rack[i].alive
      ensures best.Some? ==>
                && best.value < N && Lowest(rack[..], Col(best.value), best.value)
                && forall c: nat, i: nat | c < 11 && Lowest(rack[..], c, i) ::
                     var near, far := rack[best.value].x - (basex + 1), rack[i].x - (basex + 1);
                     var n, f := if near < 0 then -near else near, if far < 0 then -far else far;
                     n < f || (n == f && c <= best.value % 11)
    {
      best := None;
      var near: byte := 0xFF;
      var col: nat := 11;
      while col > 0
        invariant col <= 11
        invariant best.Some? ==>
                  && best.value < N && col <= Col(best.value) && Lowest(rack[..], Col(best.value), best.value)
                                 && near == Gap(rack[best.value].x, basex)
        invariant best.None? ==> near == 0xFF && forall c: nat, i: nat | col <= c < 11 :: !Lowest(rack[..], c, i)
        invariant forall c: nat, i: nat | col <= c < 11 && Lowest(rack[..], c, i) ::
                    || near < Gap(rack[i].x, basex)
                    || (best.Some? && near == Gap(rack[i].x, basex) && c <= Col(best.value))
      {
        col := col - 1;
        var low := LowCol(col);
        LowestUnique(rack[..], col);
        if low.Some? {
          LowestIs(rack[..], col, low.value);
          var gap := GapByte(rack[low.value].x, basex);
          if gap < near {
            near, best := gap, low;
          }
        } else {
          NoLowest(rack[..], col);
        }
      }
      LiveHasLowest(rack[..]);
    }

    /** Any run of ticks and shots keeps the formation, deed by deed; landing ends
        the march. */
    method Run(script: seq<Deed>)
      requires Valid()
      modifies this, rack
      ensures Valid() && Now() == AfterAll(script, old(Now()))
    {
      hide Rigid, InBounds, Landed, Living, Ticked, ShotAt;
      for i := 0 to |script|
        invariant Valid() && Now() == AfterAll(script[..i], old(Now()))
      {
        assert script[..i + 1][..i] == script[..i] && script[..i + 1][i] == script[i];
        match script[i]
        case Tick =>
          if !invaded {
            March();
          }
        case Shot(x, y) =>
          var _ := Shoot(x, y);
      }
      assert script[..|script|] == script;
    }

    /** What holds at every point of a run, spelled out for one live alien. */
    lemma Formation(i: nat)
      requires Valid() && i < N && rack[i].alive
      ensures rack[i].x == ox + 2 * (i % 11) + (if i < mcur && !drop then (if mdx == 1 then 1 else -1) else 0)
      ensures rack[i].y == oy + i / 11 + (if i < mcur && drop then 1 else 0)
      ensures 0 <= rack[i].x <= 39 && (rack[i].y >= BASEROW ==> invaded)
    {
      assert rack[..][i] == rack[i];
      hide Living;
    }
  }
}
