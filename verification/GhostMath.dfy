/** The ghosts' byte arithmetic: squared distances, the direction scan and the
    chase targets, each equal to its rule over the integers. */
module GhostMath {
  import opened Bytes
  import opened Maze

  // ---------- the 6502 operations used ----------

  function Sub(a: byte, b: byte): byte {
    (a - b) % 0x100
  }

  function Add(a: byte, b: byte): byte {
    (a + b) % 0x100
  }

  function Asl(a: byte): byte {
    2 * a % 0x100
  }

  predicate Negative(a: byte) {
    a >= 0x80
  }

  /** sec, sbc, and on a negative result eor #$FF, adc #1 with whatever carry
      the subtraction left; then and #$1F. */
  function AbsDiff(t: byte, e: byte): byte {
    var r, carry := Sub(t, e), if t >= e then 1 else 0;
    (if Negative(r) then (0xFF - r + 1 + carry) % 0x100 else r) % 32
  }

  function Square(n: int): (s: int)
    ensures s >= 0
  {
    n * n
  }

  function SqLo(n: byte): byte {
    Square(n) % 0x100
  }

  function SqHi(n: byte): byte {
    Square(n) / 0x100 % 0x100
  }

  /** The two-byte sum of two table squares. */
  function SquareSum(dx: byte, dy: byte): (byte, byte) {
    var lo := SqLo(dx) + SqLo(dy);
    (lo % 0x100, (SqHi(dx) + SqHi(dy) + lo / 0x100) % 0x100)
  }

  function Dist2(a: Cell, b: Cell): int {
    Square(a.0 - b.0) + Square(a.1 - b.1)
  }

  function Word(w: (byte, byte)): int {
    w.0 + 0x100 * w.1
  }

  /** A column one off either side of the map still has its true distance. */
  lemma AbsDiffIsDistance(t: byte, e: int)
    requires t < 32 && -1 <= e <= 28 && -31 <= t - e <= 31
    ensures AbsDiff(t, e % 0x100) == if t >= e then t - e else e - t
  {
    if e == -1 {
      assert e % 0x100 == 0xFF;
      AbsDiffFrom(t, 0xFF, t + 1);
    } else {
      assert e % 0x100 == e;
      AbsDiffFrom(t, e, if t >= e then t - e else e - t);
    }
  }

  /** The same once the difference is known: no borrow, a borrow, or the byte of
      the column before the first. */
  lemma AbsDiffFrom(t: byte, e: byte, n: nat)
    requires n < 32 && t < 32 && (t == e + n || (t < e <= 28 && e == t + n) || (e == 0xFF && n == t + 1))
    ensures AbsDiff(t, e) == n
  {
    assert Sub(t, e) == if t < e <= 28 then 0x100 - n else n;
  }

  lemma SquaresBounded(n: nat)
    requires n < 32
    ensures Square(n) <= 961
  {
  }

  /** Adding byte by byte with the carry. */
  lemma CarrySum(al: nat, ah: nat, bl: nat, bh: nat)
    requires al < 0x100 && bl < 0x100 && ah <= 3 && bh <= 3
    ensures (al + bl) % 0x100 + 0x100 * ((ah + bh + (al + bl) / 0x100) % 0x100) == al + bl + 0x100 * (ah + bh)
  {
    if al + bl < 0x100 {
      assert (al + bl) / 0x100 == 0;
    } else {
      assert (al + bl) / 0x100 == 1;
    }
  }

  lemma SquareBytes(n: byte)
    requires n < 32
    ensures SqLo(n) + 0x100 * SqHi(n) == Square(n) <= 961 && SqHi(n) <= 3
  {
    SquaresBounded(n);
    hide Square;
  }

  lemma SquareSumIsSum(dx: byte, dy: byte)
    requires dx < 32 && dy < 32
    ensures Word(SquareSum(dx, dy)) == Square(dx) + Square(dy) < 0x800
  {
    hide Square, SqLo, SqHi;
    SquareBytes(dx);
    SquareBytes(dy);
    CarrySum(SqLo(dx), SqHi(dx), SqLo(dy), SqHi(dy));
  }

  /** One axis of a distance, from bytes. */
  lemma Axis(t: byte, e: int)
    requires t < 32 && -1 <= e <= 28 && -31 <= t - e <= 31
    ensures AbsDiff(t, e % 0x100) < 32 && Square(AbsDiff(t, e % 0x100)) == Square(t - e)
  {
    AbsDiffIsDistance(t, e);
    var n := AbsDiff(t, e % 0x100);
    assert n == t - e || n == -(t - e);
    hide AbsDiff;
    NegatedSquare(t - e);
  }

  lemma NegatedSquare(a: int)
    ensures Square(-a) == Square(a)
  {
  }

  lemma Squared(a: int)
    ensures Square(a) == a * a
  {
  }

  /** The distance the scan computes for the cell in direction d. */
  function Scored(target: (byte, byte), x: byte, y: byte, d: Dir): (byte, byte) {
    SquareSum(AbsDiff(target.0, Add(x / 2, DX(d) % 0x100)), AbsDiff(target.1, Add(y / 2, DY(d) % 0x100)))
  }

  lemma StepAdds(cx: byte, cy: byte, d: Dir)
    ensures -1 <= DX(d) <= 1 && -1 <= DY(d) <= 1
    ensures Add(cx, DX(d) % 0x100) == (cx + DX(d)) % 0x100 && Add(cy, DY(d) % 0x100) == (cy + DY(d)) % 0x100
  {
  }

  lemma ScoredIsSquares(target: (byte, byte), x: byte, y: byte, d: Dir)
    requires target.0 < W && target.1 < H && x <= 54 && 2 <= y <= 47
    ensures Word(Scored(target, x, y, d)) == Dist2((target.0, target.1), (x / 2 + DX(d), y / 2 + DY(d))) < 0x800
  {
    hide Square, AbsDiff, SquareSum, Add, DX, DY;
    StepAdds(x / 2, y / 2, d);
    var ex, ey := x / 2 + DX(d), y / 2 + DY(d);
    Axis(target.0, ex);
    Axis(target.1, ey);
    SquareSumIsSum(AbsDiff(target.0, ex % 0x100), AbsDiff(target.1, ey % 0x100));
  }

  /** The bytes add up to the square of the columns plus the square of the rows. */
  lemma ScoredIsDistance(target: (byte, byte), x: byte, y: byte, d: Dir)
    requires target.0 < W && target.1 < H && x <= 54 && 2 <= y <= 47
    ensures var ex, ey := x / 2 + DX(d), y / 2 + DY(d);
            Word(Scored(target, x, y, d)) ==
            (target.0 - ex) * (target.0 - ex) + (target.1 - ey) * (target.1 - ey) < 0x800
  {
    hide Scored, Word, DX, DY, Dist2;
    ScoredIsSquares(target, x, y, d);
    ProductsOf((target.0, target.1), (x / 2 + DX(d), y / 2 + DY(d)));
  }

  lemma ProductsOf(a: Cell, b: Cell)
    ensures Dist2(a, b) == (a.0 - b.0) * (a.0 - b.0) + (a.1 - b.1) * (a.1 - b.1)
  {
  }

  // ---------- the scan ----------

  /** The first direction, in candidate order, whose next cell is nearest. */
  ghost predicate FirstNearest(cands: seq<Dir>, k: nat, target: Cell, c: Cell) {
    && k < |cands|
    && (forall j | 0 <= j < |cands| :: Score(target, c, cands[k]) <= Score(target, c, cands[j]))
    && (forall j | 0 <= j < k :: Score(target, c, cands[k]) < Score(target, c, cands[j]))
  }

  /** The squared distance to the target from the cell next door in direction d. */
  function Score(target: Cell, c: Cell, d: Dir): int {
    var x, y := target.0 - (c.0 + DX(d)), target.1 - (c.1 + DY(d));
    x * x + y * y
  }

  /** gd_scan: a two-byte best, replaced only by a strictly smaller sum. */
  method Scan(cands: seq<Dir>, target: (byte, byte), x: byte, y: byte) returns (pick: Dir)
    requires cands != [] && target.0 < W && target.1 < H && x <= 54 && 2 <= y <= 47
    ensures exists k: nat :: FirstNearest(cands, k, (target.0, target.1), (x / 2, y / 2)) && pick == cands[k]
    ensures pick in cands && forall d | d in cands :: NoFarther((target.0, target.1), (x / 2, y / 2), pick, d)
  {
    hide Scored, Score, NoFarther;
    ghost var t, c := (target.0 as int, target.1 as int), (x / 2, y / 2);
    var bestLo: byte, bestHi: byte := 0xFF, 0xFF;
    pick := cands[0];
    ghost var k: nat := 0;
    for i := 0 to |cands|
      invariant i == 0 ==> bestLo == 0xFF && bestHi == 0xFF
      invariant i > 0 ==> k < i && pick == cands[k] && Word((bestLo, bestHi)) == Score(t, c, cands[k])
      invariant forall j | 0 <= j < i :: Word((bestLo, bestHi)) <= Score(t, c, cands[j])
      invariant i > 0 ==> forall j | 0 <= j < k :: Word((bestLo, bestHi)) < Score(t, c, cands[j])
    {
      var d2 := Scored(target, x, y, cands[i]);
      ScoredIsScore(target, x, y, cands[i]);
      if d2.1 < bestHi || (d2.1 == bestHi && d2.0 < bestLo) {
        bestLo, bestHi := d2.0, d2.1;
        pick := cands[i];
        k := i;
      }
    }
    assert FirstNearest(cands, k, t, c);
    NearestMeaning(cands, k, t, c);
  }

  lemma ScoredIsScore(target: (byte, byte), x: byte, y: byte, d: Dir)
    requires target.0 < W && target.1 < H && x <= 54 && 2 <= y <= 47
    ensures Word(Scored(target, x, y, d)) == Score((target.0, target.1), (x / 2, y / 2), d) < 0x800
  {
    hide Scored, Score, Word, DX, DY;
    ScoredIsDistance(target, x, y, d);
    ScoreIs((target.0, target.1), (x / 2, y / 2), d);
  }

  lemma ScoreIs(t: Cell, c: Cell, d: Dir)
    ensures var ex, ey := c.0 + DX(d), c.1 + DY(d);
            Score(t, c, d) == (t.0 - ex) * (t.0 - ex) + (t.1 - ey) * (t.1 - ey)
  {
  }

  /** From c one cell in direction d is no farther from t than one in direction e,
      by the squares of the columns and rows between. */
  predicate NoFarther(t: Cell, c: Cell, d: Dir, e: Dir) {
    var x, y, ex, ey := t.0 - c.0 - DX(d), t.1 - c.1 - DY(d), t.0 - c.0 - DX(e), t.1 - c.1 - DY(e);
    x * x + y * y <= ex * ex + ey * ey
  }

  lemma NearestMeaning(cands: seq<Dir>, k: nat, t: Cell, c: Cell)
    requires FirstNearest(cands, k, t, c)
    ensures forall d | d in cands :: NoFarther(t, c, cands[k], d)
  {
    forall d | d in cands ensures NoFarther(t, c, cands[k], d) {
      var j :| 0 <= j < |cands| && cands[j] == d;
      ScoreMeaning(t, c, cands[k], cands[j]);
      hide Score, NoFarther;
    }
  }

  lemma ScoreMeaning(t: Cell, c: Cell, d: Dir, e: Dir)
    ensures Score(t, c, d) <= Score(t, c, e) <==> NoFarther(t, c, d, e)
  {
    ScoreIs(t, c, d);
    ScoreIs(t, c, e);
  }

  // ---------- the targets ----------

  const PIXIE := 2
  const IVY := 3
  const SABLE := 4

  /** n cells ahead of the player; facing up also shifts left. */
  function AheadOf(p: Cell, facing: byte, n: nat): Cell {
    if facing == UP then (p.0 - n, p.1 - n)
    else if facing < 4 then (p.0 + n * DX(facing), p.1 + n * DY(facing))
    else p
  }

  function ClampTo(v: int, size: int): int {
    if v < 0 then 0 else if v >= size then size - 1 else v
  }

  function Clamp(c: Cell): Cell {
    (ClampTo(c.0, W), ClampTo(c.1, H))
  }

  /** The targeting rule: corners in scatter; in chase her cell, her cell from
      afar, four ahead, or Bruiser's vector to two ahead doubled. */
  function Target(k: nat, scatter: bool, p: Cell, facing: byte, bruiser: Cell, own: Cell): Cell {
    if scatter && k == IVY then (26, 23)
    else if scatter && k == SABLE then (1, 23)
    else if k == SABLE then (if Dist2(own, p) > 64 then p else (1, 23))
    else if k == PIXIE then Clamp(AheadOf(p, facing, 4))
    else if k == IVY then
      var mid := AheadOf(p, facing, 2);
      Clamp((2 * mid.0 - bruiser.0, 2 * mid.1 - bruiser.1))
    else p
  }

  /** The cell of the map nearest to (x, y). */
  predicate NearestOnMap(t: Cell, x: int, y: int) {
    && t.0 == (if x < 0 then 0 else if x > 27 then 27 else x)
    && t.1 == (if y < 0 then 0 else if y > 24 then 24 else y)
  }

  /** Whom each ghost hunts: in scatter Ivy (3) and Sable (4) their corners; else
      Bruiser (1) the player, Pixie (2) four cells ahead of her, facing up also four
      to the left, Ivy the point as far beyond two cells ahead of her, or two up and
      two left, as Bruiser is short of it, and Sable her own cell from more than
      eight away and her corner from nearer. */
  lemma TargetSays(k: nat, scatter: bool, p: Cell, facing: byte, bruiser: Cell, own: Cell)
    requires 1 <= k <= 4 && InMaze(p)
    ensures var t := Target(k, scatter, p, facing, bruiser, own);
            var dx := if facing == 0 || facing == 1 then -1 else if facing == 3 then 1 else 0;
            var dy := if facing == 0 then -1 else if facing == 2 then 1 else 0;
            if scatter && k == 3 then t == (26, 23)
            else if k == 1 then t == p
            else if k == 2 then NearestOnMap(t, p.0 + 4 * dx, p.1 + 4 * dy)
            else if k == 3 then NearestOnMap(t, 2 * (p.0 + 2 * dx) - bruiser.0, 2 * (p.1 + 2 * dy) - bruiser.1)
            else
              var gx, gy := own.0 - p.0, own.1 - p.1;
              t == if !scatter && gx * gx + gy * gy > 64 then p else (1, 23)
  {
    Squared(own.0 - p.0);
    Squared(own.1 - p.1);
    hide Square;
  }

  function ClampByte(v: byte, size: byte): byte
    requires size > 0
  {
    var w: byte := if Negative(v) then 0 else v;
    if w < size then w else size - 1
  }

  /** calc_target on bytes; wrapped intermediate results clamp to the same cell
      as the integer rule. */
  method CalcTarget(k: nat, schedState: byte, px: byte, py: byte, facing: byte, baseX: byte, baseY: byte, gx: byte,
                    gy: byte)
    returns (t: (byte, byte))
    requires 1 <= k <= 4 && px < W && py < H && baseX < W && baseY < H && gx < W && gy < H
    ensures (t.0 as int, t.1 as int) == Target(k, schedState % 2 == 0, (px, py), facing, (baseX, baseY), (gx, gy))
    ensures t.0 < W && t.1 < H
    ensures k == 4 && schedState % 2 == 1 ==>
              (t.0, t.1) == if (gx - px) * (gx - px) + (gy - py) * (gy - py) > 64 then (px, py) else (1, 23)
  {
    TargetSays(k, schedState % 2 == 0, (px, py), facing, (baseX, baseY), (gx, gy));
    hide Square, SquareSum, AbsDiff, NearestOnMap;
    if schedState % 2 == 0 {
      if k == IVY {
        return (26, 23);
      }
      if k == SABLE {
        return (1, 23);
      }
    }
    var ttx, tty := px, py;
    if k == 1 {
      return (ttx, tty);
    }
    if k == SABLE {
      var d2 := SquareSum(AbsDiff(gx, ttx), AbsDiff(gy, tty));
      OwnDistance(gx, gy, px, py);
      if d2.1 != 0 || d2.0 >= 65 {
        return (ttx, tty);
      }
      return (1, 23);
    }
    var n: byte := if k == PIXIE then 4 else 2;
    ttx, tty := Lead(px, py, facing, n);
    ghost var mid := AheadOf((px, py), facing, n);
    hide Add, Sub, Asl, ClampByte, ClampTo, AheadOf;
    if k == IVY {
      DoubleWraps(mid.0, baseX);
      DoubleWraps(mid.1, baseY);
      ttx, tty := Sub(Asl(ttx), baseX), Sub(Asl(tty), baseY);
      mid := (2 * mid.0 - baseX, 2 * mid.1 - baseY);
    }
    ClampWraps(mid.0, W);
    ClampWraps(mid.1, H);
    return (ClampByte(ttx, W), ClampByte(tty, H));
  }

  /** n cells ahead, each coordinate wrapping on its own. */
  method Lead(px: byte, py: byte, facing: byte, n: byte) returns (ttx: byte, tty: byte)
    requires px < W && py < H && (n == 2 || n == 4)
    ensures var mid := AheadOf((px, py), facing, n);
            ttx == mid.0 % 0x100 && tty == mid.1 % 0x100 && -4 <= mid.0 <= 31 && -4 <= mid.1 <= 28
  {
    ttx, tty := px, py;
    if facing == UP {
      ttx, tty := Sub(ttx, n), Sub(tty, n);
    } else if facing < 4 {
      if DX(facing) > 0 {
        ttx := Add(ttx, n);
      } else if DX(facing) < 0 {
        ttx := Sub(ttx, n);
      }
      if DY(facing) > 0 {
        tty := Add(tty, n);
      } else if DY(facing) < 0 {
        tty := Sub(tty, n);
      }
    }
  }

  lemma OwnDistance(gx: byte, gy: byte, px: byte, py: byte)
    requires px < W && py < H && gx < W && gy < H
    ensures Word(SquareSum(AbsDiff(gx, px), AbsDiff(gy, py))) == Dist2((gx, gy), (px, py))
  {
    hide Square, AbsDiff, SquareSum;
    assert px % 0x100 == px && py % 0x100 == py;
    Axis(gx, px);
    Axis(gy, py);
    SquareSumIsSum(AbsDiff(gx, px), AbsDiff(gy, py));
  }

  lemma DoubleWraps(m: int, b: byte)
    ensures Sub(Asl(m % 0x100), b) == (2 * m - b) % 0x100
  {
    assert m == 0x100 * (m / 0x100) + m % 0x100;
    WrapShift(2 * (m % 0x100) - b, 2 * (m / 0x100));
    WrapShift(2 * (m % 0x100) % 0x100 - b, 2 * (m % 0x100) / 0x100);
  }

  lemma WrapShift(v: int, q: int)
    ensures (v + 0x100 * q) % 0x100 == v % 0x100
  {
  }

  lemma ClampWraps(v: int, size: byte)
    requires -0x80 <= v < 0x80 && 0 < size
    ensures ClampByte(v % 0x100, size) == ClampTo(v, size) < size
  {
  }
}
