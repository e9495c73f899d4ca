/** The score: a capped two-byte sum, one bonus base per game, and its decimal
    picture on the screen. */
module Score {
  import opened Bytes

  const CAP := 9999
  const BONUS := 150
  const SCREEN := 0x8000
  const CELLS := 1000
  const HUDROW: byte := 0

  function Min(a: int, b: int): int {
    if a < b then a else b
  }

  function Word(lo: byte, hi: byte): int {
    lo + 0x100 * hi
  }

  // ---------- addresses ----------

  /** asl: the doubled byte and the bit shifted out. */
  function Asl(a: byte): (byte, byte) {
    (2 * a % 0x100, a / 0x80)
  }

  /** The screen address of a row and column, eight, sixteen and thirty-two
      times the row in turn. */
  method PlotAddr(row: byte, col: byte) returns (lo: byte, hi: byte)
    requires row < 32
    ensures Word(lo, hi) == SCREEN + 40 * row + col
  {
    AslWord(8 * row);
    AslWord(Asl(8 * row).0);
    AslSmall(row);
    AslSmall(2 * row);
    AslSmall(4 * row);
    hide Asl;
    var row8 := Asl(Asl(Asl(row).0).0).0;
    var a := Asl(row8);
    var b := Asl(a.0);
    hi := 2 * a.1 + b.1;
    assert b.0 + 0x100 * hi == 32 * row;
    lo, hi := AddByte(b.0, hi, row8);
    lo, hi := AddByte(lo, hi, col);
    hi := hi + 0x80;
  }

  /** adc into the low byte, carrying into the high one. */
  method AddByte(a: byte, h: byte, b: byte) returns (lo: byte, hi: byte)
    requires h < 0xFF
    ensures Word(lo, hi) == Word(a, h) + b
  {
    var sum: int := a + b;
    lo := sum % 0x100;
    hi := if sum >= 0x100 then h + 1 else h;
  }

  lemma AslSmall(a: byte)
    requires a < 0x80
    ensures Asl(a).0 == 2 * a
  {
  }

  lemma AslWord(a: byte)
    ensures Asl(a).0 + 0x100 * Asl(a).1 == 2 * a && Asl(a).1 <= 1
  {
  }

  // ---------- digits ----------

  /** ora #48 */
  function Ora48(d: byte): byte {
    d % 16 + 48 + 64 * (d / 64)
  }

  lemma DigitGlyph(d: byte)
    requires d < 10
    ensures Ora48(d) == 48 + d
  {
  }

  /** Repeated two-byte subtraction: quotient and remainder. */
  method Digit(numLo: byte, numHi: byte, subLo: byte, subHi: byte) returns (x: byte, lo: byte, hi: byte)
    requires 0 < Word(subLo, subHi) && Word(numLo, numHi) < 0x100 * Word(subLo, subHi)
    ensures Word(numLo, numHi) == x * Word(subLo, subHi) + Word(lo, hi) && Word(lo, hi) < Word(subLo, subHi)
  {
    x, lo, hi := 0, numLo, numHi;
    hide Word;
    ghost var sub, num := Word(subLo, subHi), Word(numLo, numHi);
    assert num == 0 * sub + Word(lo, hi);
    while true
      invariant num == x * sub + Word(lo, hi)
      decreases Word(lo, hi)
    {
      var borrow := if lo < subLo then 1 else 0;
      Borrow(lo, hi, subLo, subHi);
      if hi < subHi + borrow {
        return;
      }
      Quotient(num, sub, x, Word(lo, hi));
      lo, hi := (lo - subLo) % 0x100, hi - subHi - borrow;
      x := x + 1;
    }
  }

  lemma Borrow(lo: byte, hi: byte, subLo: byte, subHi: byte)
    ensures var borrow := if lo < subLo then 1 else 0;
            if hi < subHi + borrow then Word(lo, hi) < Word(subLo, subHi)
            else Word((lo - subLo) % 0x100, hi - subHi - borrow) == Word(lo, hi) - Word(subLo, subHi)
  {
  }

  lemma Quotient(num: nat, sub: nat, x: nat, rest: nat)
    requires num == x * sub + rest && sub <= rest && num < 0x100 * sub
    ensures x + 1 < 0x100 && num == (x + 1) * sub + (rest - sub)
  {
    Cancel(x + 1, 0x100, sub);
  }

  lemma Cancel(a: nat, b: nat, s: nat)
    ensures a >= b ==> a * s >= b * s
  {
  }

  // ---------- the head-up display ----------

  function Pow10(k: nat): nat
    requires k <= 4
  {
    if k == 0 then 1 else if k == 1 then 10 else if k == 2 then 100 else if k == 3 then 1000 else 10000
  }

  /** The decimal digit of v worth 10^k. */
  function DigitOf(v: nat, k: nat): nat
    requires k <= 4
  {
    v / Pow10(k) % 10
  }

  /** Five decimal digits of v in screen codes from an offset on. */
  ghost predicate Shows(screen: seq<byte>, at: nat, v: nat) {
    && at + 5 <= |screen|
    && screen[at] == 48 + DigitOf(v, 4) && screen[at + 1] == 48 + DigitOf(v, 3) && screen[at + 2] == 48 + DigitOf(v, 2)
    && screen[at + 3] == 48 + DigitOf(v, 1) && screen[at + 4] == 48 + DigitOf(v, 0)
  }

  /** The five cells hold digits, and read off they are the number. */
  lemma ShowsReads(screen: seq<byte>, at: nat, v: nat)
    requires Shows(screen, at, v) && v < 100000
    ensures forall k | at <= k < at + 5 :: 48 <= screen[k] <= 57
    ensures v == 10000 * (screen[at] as int - 48) + 1000 * (screen[at + 1] as int - 48)
                 + 100 * (screen[at + 2] as int - 48) + 10 * (screen[at + 3] as int - 48) + (screen[at + 4] as int - 48)
  {
    DigitsMake(v);
    hide DigitOf;
  }

  lemma DigitsMake(v: nat)
    requires v < 100000
    ensures v == 10000 * DigitOf(v, 4) + 1000 * DigitOf(v, 3) + 100 * DigitOf(v, 2) + 10 * DigitOf(v, 1) + DigitOf(v, 0)
    ensures DigitOf(v, 4) < 10 && DigitOf(v, 3) < 10 && DigitOf(v, 2) < 10 && DigitOf(v, 1) < 10 && DigitOf(v, 0) < 10
  {
    var a := v / 10;
    var b := a / 10;
    var c := b / 10;
    assert b == v / 100 && c == v / 1000 && c / 10 == v / 10000 < 10;
  }

  lemma DigitsOfTens(num: nat, a: nat, b: nat, c: nat, d: nat)
    requires num == 1000 * a + 100 * b + 10 * c + d && a < 10 && b < 10 && c < 10 && d < 10
    ensures DigitOf(10 * num, 4) == a && DigitOf(10 * num, 3) == b && DigitOf(10 * num, 2) == c
    ensures DigitOf(10 * num, 1) == d && DigitOf(10 * num, 0) == 0
  {
    assert 10 * num / 10000 == a && 10 * num / 1000 == 10 * a + b && 10 * num / 100 == 100 * a + 10 * b + c;
  }

  /** The bases after a game worth so many points: the bonus once. */
  function WithBonus(start: byte, total: nat): byte {
    (start + (if total >= BONUS then 1 else 0)) % 0x100
  }

  lemma BonusOnce(start: byte, total: nat, points: byte)
    ensures var before, after := Min(total, CAP), Min(total + points, CAP);
            && after == Min(before + points, CAP)
            && WithBonus(start, total + points) ==
               (WithBonus(start, total) + (if before < BONUS <= after then 1 else 0)) % 0x100
  {
  }

  lemma BonusIs(start: byte, total: nat)
    ensures WithBonus(start, total) == (start + (if total >= 150 then 1 else 0)) % 0x100
  {
  }

  lemma NoPoints(start: byte)
    ensures Total([]) == 0 && WithBonus(start, 0) == start
  {
  }

  /** The two-byte sum, held at the cap. */
  method Added(scoreLo: byte, scoreHi: byte, points: byte) returns (lo: byte, hi: byte)
    requires Word(scoreLo, scoreHi) <= CAP
    ensures Word(lo, hi) == Min(Word(scoreLo, scoreHi) + points, CAP)
  {
    lo, hi := AddByte(scoreLo, scoreHi, points);
    if hi > CAP / 0x100 || (hi == CAP / 0x100 && lo >= CAP % 0x100) {
      lo, hi := CAP % 0x100, CAP / 0x100;
    }
  }

  class Hud {
    const screen: array<byte>
    var lo: byte
    var hi: byte
    var extra: byte
    var lives: byte

    ghost function Score(): int
      reads this
    {
      Word(lo, hi)
    }

    ghost predicate Valid()
      reads this
    {
      screen.Length == CELLS && Score() <= CAP && extra <= 1 && (extra == 1 <==> Score() >= BONUS)
    }

    constructor (startLives: byte)
      ensures Valid() && Score() == 0 && lives == startLives && fresh(screen)
    {
      screen := new byte[CELLS];
      lo, hi, extra, lives := 0, 0, 0, startLives;
    }

    /** Four digits by subtraction and a literal zero. */
    method DrawNum(at: nat, numLo: byte, numHi: byte)
      requires at + 5 <= screen.Length && Word(numLo, numHi) <= CAP
      modifies screen
      ensures Shows(screen[..], at, 10 * Word(numLo, numHi))
      ensures forall o | 0 <= o < screen.Length && !(at <= o < at + 5) :: screen[o] == old(screen[o])
    {
      var a, l1, h1 := Digit(numLo, numHi, 1000 % 0x100, 1000 / 0x100);
      var b, l2, h2 := Digit(l1, h1, 100, 0);
      var c, l3, h3 := Digit(l2, h2, 10, 0);
      DigitsOfTens(Word(numLo, numHi), a, b, c, l3);
      DigitGlyph(a);
      DigitGlyph(b);
      DigitGlyph(c);
      DigitGlyph(l3);
      screen[at], screen[at + 1], screen[at + 2], screen[at + 3] := Ora48(a), Ora48(b), Ora48(c), Ora48(l3);
      screen[at + 4] := 48;
    }

    /** The score in the HUD row from column 6 on. */
    method DrawScore()
      requires screen.Length == CELLS && Score() <= CAP
      modifies screen
      ensures Shows(screen[..], 40 * HUDROW + 6, 10 * Score())
      ensures forall o | 0 <= o < CELLS && !(6 <= o < 11) :: screen[o] == old(screen[o])
    {
      hide Shows;
      var pl, ph := PlotAddr(HUDROW, 6);
      DrawNum(Word(pl, ph) - SCREEN, lo, hi);
    }

    /** Points in units of ten: capped, shown, and worth a base once. */
    method AddScore(points: byte)
      requires Valid()
      modifies this, screen
      ensures Valid() && Score() == (if old(Score()) + points > 9999 then 9999 else old(Score()) + points)
      ensures lives == (old(lives) + (if old(Score()) < 150 <= Score() then 1 else 0)) % 0x100
      ensures Shows(screen[..], 40 * HUDROW + 6, 10 * Score())
      ensures forall o | 0 <= o < CELLS && !(6 <= o < 11) :: screen[o] == old(screen[o])
    {
      hide Shows, DigitOf;
      lo, hi := Added(lo, hi, points);
      DrawScore();
      if extra == 0 && (hi != 0 || lo >= BONUS) {
        extra := extra + 1;
        lives := (lives + 1) % 0x100;
      }
    }

    /** A whole game's scoring: the capped total, and the bonus base at most
        once. */
    method Game(points: seq<byte>)
      requires Valid() && Score() == 0
      modifies this, screen
      ensures Valid() && Score() == (if Total(points) > 9999 then 9999 else Total(points))
      ensures lives == (old(lives) + (if Total(points) >= 150 then 1 else 0)) % 0x100
    {
      hide WithBonus, Total;
      NoPoints(lives);
      for i := 0 to |points|
        invariant Valid() && Score() == Min(Total(points[..i]), CAP)
        invariant lives == WithBonus(old(lives), Total(points[..i]))
      {
        BonusOnce(old(lives), Total(points[..i]), points[i]);
        TotalSnoc(points[..i], points[i]);
        assert points[..i + 1] == points[..i] + [points[i]];
        AddScore(points[i]);
      }
      assert points[..|points|] == points;
      BonusIs(old(lives), Total(points));
    }
  }

  function Total(points: seq<byte>): nat {
    if points == [] then 0 else points[0] + Total(points[1..])
  }

  lemma {:induction false} TotalSnoc(points: seq<byte>, p: byte)
    ensures Total(points + [p]) == Total(points) + p
  {
    if points == [] {
      assert [p][1..] == [];
    } else {
      assert (points + [p])[1..] == points[1..] + [p];
      TotalSnoc(points[1..], p);
    }
  }
}
