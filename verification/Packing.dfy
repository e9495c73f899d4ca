/** Packed maps: four 2-bit cells to a byte.  The host packs them; the game
    unpacks them into its working array. */
module Packing {
  import opened Maze

  type Grid = seq<seq<bv8>>

  /** A cell shifted to the j-th place of a byte. */
  function Placed(c: bv8, j: nat): bv8
    requires j < 4
  {
    if j == 0 then c else if j == 1 then c << 2 else if j == 2 then c << 4 else c << 6
  }

  /** The cell in the j-th place of a byte. */
  function Taken(b: bv8, j: nat): bv8
    requires j < 4
  {
    if j == 0 then b & 3 else if j == 1 then (b >> 2) & 3 else if j == 2 then (b >> 4) & 3 else (b >> 6) & 3
  }

  /** The first j cells of a group, each in its place. */
  function PackFirst(cells: seq<bv8>, j: nat): bv8
    requires j <= |cells| <= 4
  {
    if j == 0 then 0 else PackFirst(cells, j - 1) | Placed(cells[j - 1], j - 1)
  }

  function Group(flat: seq<bv8>, k: nat): (g: seq<bv8>)
    requires 4 * k < |flat|
    ensures |g| <= 4
  {
    if 4 * k + 4 <= |flat| then flat[4 * k..4 * k + 4] else flat[4 * k..]
  }

  function PackOf(flat: seq<bv8>): seq<bv8> {
    seq((|flat| + 3) / 4, k requires 0 <= k < (|flat| + 3) / 4 => PackFirst(Group(flat, k), |Group(flat, k)|))
  }

  function UnpackOf(packed: seq<bv8>): seq<bv8> {
    seq(4 * |packed|, i requires 0 <= i < 4 * |packed| => Taken(packed[i / 4], i % 4))
  }

  predicate TwoBit(flat: seq<bv8>) {
    forall i | 0 <= i < |flat| :: flat[i] < 4
  }

  lemma PackFour(g: seq<bv8>)
    requires |g| == 4
    ensures PackFirst(g, 4) == g[0] | (g[1] << 2) | (g[2] << 4) | (g[3] << 6)
  {
    assert PackFirst(g, 0) == 0;
    assert PackFirst(g, 1) == 0 | Placed(g[0], 0);
    assert PackFirst(g, 2) == PackFirst(g, 1) | Placed(g[1], 1);
    assert PackFirst(g, 3) == PackFirst(g, 2) | Placed(g[2], 2);
    OrZero(g[0]);
  }

  lemma OrZero(b: bv8)
    ensures 0 | b == b
  {
  }

  lemma ByteRoundTrip(a: bv8, b: bv8, c: bv8, d: bv8)
    requires a < 4 && b < 4 && c < 4 && d < 4
    ensures var p := a | (b << 2) | (c << 4) | (d << 6);
            p & 3 == a && (p >> 2) & 3 == b && (p >> 4) & 3 == c && (p >> 6) & 3 == d
  {
  }

  lemma {:induction false} CellRoundTrip(flat: seq<bv8>, i: nat)
    requires |flat| % 4 == 0 && TwoBit(flat) && i < |flat|
    ensures Taken(PackOf(flat)[i / 4], i % 4) == flat[i]
  {
    var k := i / 4;
    var g := Group(flat, k);
    assert g[0] == flat[4 * k] && g[1] == flat[4 * k + 1] && g[2] == flat[4 * k + 2] && g[3] == flat[4 * k + 3];
    PackFour(g);
    ByteRoundTrip(g[0], g[1], g[2], g[3]);
    assert flat[i] == g[i % 4];
  }

  /** The first of four cells lies in the lowest bits. */
  lemma PackedBits(flat: seq<bv8>, k: nat)
    requires |flat| % 4 == 0 && 4 * k < |flat|
    ensures PackOf(flat)[k] == flat[4 * k] | (flat[4 * k + 1] << 2) | (flat[4 * k + 2] << 4) | (flat[4 * k + 3] << 6)
  {
    var g := Group(flat, k);
    assert g[0] == flat[4 * k] && g[1] == flat[4 * k + 1] && g[2] == flat[4 * k + 2] && g[3] == flat[4 * k + 3];
    PackFour(g);
  }

  /** Unpacking undoes packing, for every whole number of bytes. */
  lemma {:induction false} FlatRoundTrip(flat: seq<bv8>)
    requires |flat| % 4 == 0 && TwoBit(flat)
    ensures UnpackOf(PackOf(flat)) == flat && |PackOf(flat)| == |flat| / 4
  {
    forall i | 0 <= i < |flat| ensures UnpackOf(PackOf(flat))[i] == flat[i] {
      CellRoundTrip(flat, i);
    }
  }

  // ---------- rows ----------

  /** The cells of a grid of equally wide rows, row by row. */
  function FlatOf(grid: Grid): seq<bv8>
    requires Wide(grid)
  {
    seq(W * |grid|, i requires 0 <= i < W * |grid| => grid[i / W][i % W])
  }

  predicate Wide(grid: Grid) {
    forall y | 0 <= y < |grid| :: |grid[y]| == W
  }

  /** A slice as the host takes it: cut short where the cells end. */
  function Slice(flat: seq<bv8>, from: nat, to: nat): seq<bv8>
    requires from <= to
  {
    if from >= |flat| then [] else if to >= |flat| then flat[from..] else flat[from..to]
  }

  function RowsOf(flat: seq<bv8>): Grid {
    seq(H, y requires 0 <= y < H => Slice(flat, y * W, (y + 1) * W))
  }

  /** Row y holds the cells from y * W on, as many as there are. */
  lemma RowsMeaning(flat: seq<bv8>, y: nat)
    requires y < H
    ensures var row := RowsOf(flat)[y];
            && |row| == (if y * W >= |flat| then 0 else if (y + 1) * W >= |flat| then |flat| - y * W else W)
            && forall x | 0 <= x < |row| :: row[x] == flat[y * W + x]
  {
  }

  lemma RowsRoundTrip(grid: Grid)
    requires Wide(grid) && |grid| == H
    ensures RowsOf(FlatOf(grid)) == grid
  {
    var rows := RowsOf(FlatOf(grid));
    hide FlatOf, Slice;
    forall y: nat | y < H ensures rows[y] == grid[y] {
      RowsMeaning(FlatOf(grid), y);
      FlatAt(grid, y);
    }
  }

  lemma FlatAt(grid: Grid, y: nat)
    requires Wide(grid) && |grid| == H && y < H
    ensures |FlatOf(grid)| == W * H && forall x: nat | x < W :: FlatOf(grid)[y * W + x] == grid[y][x]
  {
    forall x: nat | x < W ensures FlatOf(grid)[y * W + x] == grid[y][x] {
      assert (y * W + x) / W == y && (y * W + x) % W == x;
    }
  }

  /** A maze survives packing and unpacking, in 175 bytes. */
  lemma MazeRoundTrip(grid: Grid)
    requires Wide(grid) && |grid| == H && TwoBit(FlatOf(grid))
    ensures |PackOf(FlatOf(grid))| == 175
    ensures RowsOf(UnpackOf(PackOf(FlatOf(grid)))) == grid
  {
    RowsRoundTrip(grid);
    FlatRoundTrip(FlatOf(grid));
  }

  // ---------- the host's loops ----------

  method Pack(flat: seq<bv8>) returns (out: seq<bv8>)
    ensures out == PackOf(flat)
  {
    out := [];
    var i := 0;
    while i < |flat|
      invariant i == 4 * |out| && |out| <= (|flat| + 3) / 4
      invariant forall k | 0 <= k < |out| :: out[k] == PackOf(flat)[k]
    {
      var group := if i + 4 <= |flat| then flat[i..i + 4] else flat[i..];
      var b: bv8 := 0;
      for j := 0 to |group|
        invariant b == PackFirst(group, j)
      {
        b := b | Placed(group[j], j);
      }
      assert group == Group(flat, |out|);
      out := out + [b];
      i := i + 4;
    }
  }

  /** The first n cells of a byte. */
  function Cells(b: bv8, n: nat): seq<bv8>
    requires n <= 4
  {
    seq(n, j requires 0 <= j < n => Taken(b, j))
  }

  lemma UnpackOneMore(packed: seq<bv8>, i: nat)
    requires i < |packed|
    ensures UnpackOf(packed[..i + 1]) == UnpackOf(packed[..i]) + Cells(packed[i], 4)
  {
    hide Taken;
    var more, all := packed[..i + 1], UnpackOf(packed[..i]) + Cells(packed[i], 4);
    forall k: nat | k < 4 * (i + 1) ensures UnpackOf(more)[k] == all[k] {
      assert k / 4 < i <==> k < 4 * i;
    }
  }

  /** Unpacks whole or short input: short input leaves short rows. */
  method Unpack(packed: seq<bv8>) returns (grid: Grid)
    ensures grid == RowsOf(UnpackOf(packed))
  {
    var flat: seq<bv8> := [];
    assert UnpackOf(packed[..0]) == [];
    hide Taken, UnpackOf;
    for i := 0 to |packed|
      invariant flat == UnpackOf(packed[..i])
    {
      ghost var was := flat;
      for j := 0 to 4
        invariant flat == was + Cells(packed[i], j)
      {
        flat := flat + [Taken(packed[i], j)];
      }
      UnpackOneMore(packed, i);
    }
    assert packed[..|packed|] == packed;
    grid := [];
    for y := 0 to H
      invariant |grid| == y && forall k | 0 <= k < y :: grid[k] == Slice(flat, k * W, (k + 1) * W)
    {
      grid := grid + [Slice(flat, y * W, (y + 1) * W)];
    }
  }

  // ---------- the game's unpacker ----------

  function CountDots(cells: seq<bv8>, n: nat): nat
    requires n <= |cells|
  {
    if n == 0 then 0 else CountDots(cells, n - 1) + (if cells[n - 1] == 1 then 1 else 0)
  }

  /** The count is of the places that hold a dot (1). */
  lemma {:induction false} CountIsOfDots(cells: seq<bv8>, n: nat)
    requires n <= |cells|
    ensures CountDots(cells, n) == |DotPlaces(cells, n)|
  {
    if n > 0 {
      CountIsOfDots(cells, n - 1);
      assert DotPlaces(cells, n) ==
             if cells[n - 1] == 1 then DotPlaces(cells, n - 1) + {n - 1} else DotPlaces(cells, n - 1);
    }
  }

  function DotPlaces(cells: seq<bv8>, n: nat): set<nat>
    requires n <= |cells|
  {
    set i: nat | i < n && cells[i] == 1
  }

  /** A byte shifted down by two bits y times. */
  function Shifted(b: bv8, y: nat): bv8 {
    if y == 0 then b else Shifted(b, y - 1) >> 2
  }

  lemma ShiftedTaken(b: bv8, y: nat)
    requires y < 4
    ensures Shifted(b, y) & 3 == Taken(b, y)
  {
    assert Shifted(b, 0) == b;
    assert Shifted(b, 1) == b >> 2;
    assert Shifted(b, 2) == (b >> 2) >> 2;
    assert Shifted(b, 3) == ((b >> 2) >> 2) >> 2;
  }

  lemma ShiftedStep(b: bv8, y: nat)
    ensures Shifted(b, 0) == b && Shifted(b, y + 1) == Shifted(b, y) >> 2
  {
  }

  /** The four cells of a byte lie at an offset. */
  predicate GroupAt(all: seq<bv8>, at: nat, b: bv8) {
    at + 4 <= |all| && forall j: nat | j < 4 :: all[at + j] == Taken(b, j)
  }

  /** Four cells are written and no others. */
  predicate Overlaid(was: seq<bv8>, now: seq<bv8>, all: seq<bv8>, at: nat) {
    && at + 4 <= |all| == |was| == |now|
    && forall k | 0 <= k < |now| :: now[k] == if at <= k < at + 4 then all[k] else was[k]
  }

  lemma OverlaidMore(was: seq<bv8>, now: seq<bv8>, all: seq<bv8>, at: nat)
    requires Overlaid(was, now, all, at) && was[..at] == all[..at]
    ensures now[..at + 4] == all[..at + 4]
  {
    forall k | 0 <= k < at + 4 ensures now[k] == all[k] {
      if k < at {
        assert was[..at][k] == all[..at][k];
      }
    }
  }

  /** One byte: four cells, counted into a byte pair when they are dots. */
  method UnpackGroup(b: bv8, dots: array<bv8>, at: nat, ghost all: seq<bv8>, lo0: nat, hi0: nat)
    returns (lo: nat, hi: nat)
    requires dots.Length == |all| && GroupAt(all, at, b)
    requires lo0 < 0x100 && lo0 + 0x100 * hi0 == CountDots(all, at)
    modifies dots
    ensures Overlaid(old(dots[..]), dots[..], all, at)
    ensures lo < 0x100 && lo + 0x100 * hi == CountDots(all, at + 4)
  {
    hide Shifted, Taken;
    lo, hi := lo0, hi0;
    var mtmp := b;
    ShiftedStep(b, 0);
    for y := 0 to 4
      invariant mtmp == Shifted(b, y)
      invariant forall k | 0 <= k < dots.Length :: dots[k] == if at <= k < at + y then all[k] else old(dots[k])
      invariant lo < 0x100 && lo + 0x100 * hi == CountDots(all, at + y)
    {
      ShiftedTaken(b, y);
      ShiftedStep(b, y);
      assert all[at + y] == mtmp & 3;
      dots[at + y] := mtmp & 3;
      if mtmp & 3 == 1 {
        lo := (lo + 1) % 0x100;
        if lo == 0 {
          hi := hi + 1;
        }
      }
      mtmp := mtmp >> 2;
    }
  }

  lemma UnpackedAt(packed: seq<bv8>, i: nat)
    requires i < |packed|
    ensures |UnpackOf(packed)| == 4 * |packed| && GroupAt(UnpackOf(packed), 4 * i, packed[i])
  {
    hide Taken;
    forall j: nat | j < 4 ensures UnpackOf(packed)[4 * i + j] == Taken(packed[i], j) {
      assert (4 * i + j) / 4 == i && (4 * i + j) % 4 == j;
    }
  }

  /** Unpacks a whole map by shifting each byte down two bits at a time. */
  method UnpackMaze(packed: seq<bv8>, dots: array<bv8>) returns (lo: nat, hi: nat)
    requires |packed| * 4 == dots.Length
    modifies dots
    ensures dots[..] == UnpackOf(packed)
    ensures lo < 0x100 && lo + 0x100 * hi == CountDots(UnpackOf(packed), dots.Length)
  {
    lo, hi := 0, 0;
    ghost var all := UnpackOf(packed);
    assert |all| == dots.Length && CountDots(all, 0) == 0;
    hide Taken, UnpackOf, CountDots, GroupAt, Overlaid;
    for i := 0 to |packed|
      invariant |all| == dots.Length && dots[..][..4 * i] == all[..4 * i]
      invariant lo < 0x100 && lo + 0x100 * hi == CountDots(all, 4 * i)
    {
      ghost var was := dots[..];
      UnpackedAt(packed, i);
      lo, hi := UnpackGroup(packed[i], dots, 4 * i, all, lo, hi);
      OverlaidMore(was, dots[..], all, 4 * i);
    }
    assert dots[..] == dots[..][..4 * |packed|] && all == all[..4 * |packed|];
  }
}
