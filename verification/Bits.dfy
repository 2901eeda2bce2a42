/** Bitwise AND and OR of unbounded two's-complement integers, digit by digit. */
module Bits {

  function Magnitude(x: int): nat { if x < 0 then -x else x }

  function And(x: int, y: int): int
    decreases Magnitude(x)
  {
    if x == 0 then 0
    else if x == -1 then y
    else 2 * And(x / 2, y / 2) + (x % 2) * (y % 2)
  }

  function Or(x: int, y: int): int
    decreases Magnitude(x)
  {
    if x == 0 then y
    else if x == -1 then -1
    else 2 * Or(x / 2, y / 2) + (if x % 2 == 1 || y % 2 == 1 then 1 else 0)
  }

  function Invert(x: int): int { -x - 1 }

  /** The three logic opcodes fit together as in Boolean algebra, on every pair of cells. */
  lemma {:induction false} DeMorgan(x: int, y: int)
    ensures Invert(And(x, y)) == Or(Invert(x), Invert(y))
    decreases Magnitude(x)
  {
    if x != 0 && x != -1 {
      DeMorgan(x / 2, y / 2);
      assert Invert(x) / 2 == Invert(x / 2) && Invert(x) % 2 == 1 - x % 2;
      assert Invert(y) / 2 == Invert(y / 2) && Invert(y) % 2 == 1 - y % 2;
    }
  }

  // ---- what each bit is ----

  function PowerOfTwo(k: nat): (p: nat)
    ensures p >= 1
  {
    if k == 0 then 1 else 2 * PowerOfTwo(k - 1)
  }

  /** Bit `k` of a two's-complement integer. */
  function Bit(x: int, k: nat): int { (x / PowerOfTwo(k)) % 2 }

  /** A quotient is known by its remainder. */
  lemma QuotientIs(x: int, d: int, q: int, r: int)
    requires d > 0 && x == d * q + r && 0 <= r < d
    ensures x / d == q
  {
    var gap := x / d - q;
    assert d * gap == r - x % d;
    if gap != 0 {
      AtLeastOnce(d, gap);
    }
  }

  lemma {:induction false} AtLeastOnce(d: int, gap: int)
    requires d > 0 && gap != 0
    ensures if gap > 0 then d * gap >= d else d * gap <= -d
    decreases Magnitude(gap)
  {
    if gap > 1 {
      AtLeastOnce(d, gap - 1);
      Distributes(d, gap - 1, 1);
    } else if gap < -1 {
      AtLeastOnce(d, gap + 1);
      Distributes(d, gap + 1, -1);
    }
  }

  lemma Distributes(d: int, x: int, y: int)
    ensures d * (x + y) == d * x + d * y
  {
  }

  /** Halving shifts the bits down by one. */
  lemma BitShifts(x: int, k: nat)
    ensures Bit(x, k + 1) == Bit(x / 2, k)
  {
    var p := PowerOfTwo(k);
    var q, r := (x / 2) / p, (x / 2) % p;
    assert x == 2 * (p * q + r) + x % 2 == (2 * p) * q + (2 * r + x % 2);
    QuotientIs(x, 2 * p, q, 2 * r + x % 2);
  }

  lemma LowestBit(x: int)
    ensures Bit(x, 0) == x % 2
  {
  }

  lemma AndHalves(x: int, y: int)
    ensures And(x, y) / 2 == And(x / 2, y / 2) && (And(x, y) % 2 == 1 <==> x % 2 == 1 && y % 2 == 1)
  {
    if x == 0 {
    } else if x == -1 {
    } else if x % 2 == 0 {
      assert (x % 2) * (y % 2) == 0;
      assert And(x, y) == 2 * And(x / 2, y / 2);
    } else {
      assert (x % 2) * (y % 2) == y % 2;
      assert And(x, y) == 2 * And(x / 2, y / 2) + y % 2;
    }
  }

  lemma OrHalves(x: int, y: int)
    ensures Or(x, y) / 2 == Or(x / 2, y / 2) && (Or(x, y) % 2 == 1 <==> x % 2 == 1 || y % 2 == 1)
  {
  }

  /** A bit of `x AND y` is set exactly when that bit of both is. */
  lemma {:induction false} AndBits(x: int, y: int, k: nat)
    ensures Bit(And(x, y), k) == 1 <==> Bit(x, k) == 1 && Bit(y, k) == 1
    decreases k
  {
    hide And, Bit;
    AndHalves(x, y);
    if k == 0 {
      LowestBit(x);
      LowestBit(y);
      LowestBit(And(x, y));
    } else {
      BitShifts(x, k - 1);
      BitShifts(y, k - 1);
      BitShifts(And(x, y), k - 1);
      AndBits(x / 2, y / 2, k - 1);
    }
  }

  /** A bit of `x OR y` is set exactly when that bit of either is. */
  lemma {:induction false} OrBits(x: int, y: int, k: nat)
    ensures Bit(Or(x, y), k) == 1 <==> Bit(x, k) == 1 || Bit(y, k) == 1
    decreases k
  {
    hide Or, Bit;
    OrHalves(x, y);
    if k == 0 {
      LowestBit(x);
      LowestBit(y);
      LowestBit(Or(x, y));
    } else {
      BitShifts(x, k - 1);
      BitShifts(y, k - 1);
      BitShifts(Or(x, y), k - 1);
      OrBits(x / 2, y / 2, k - 1);
    }
  }

  /** A bit of `INVERT x` is set exactly when that bit of `x` is not. */
  lemma {:induction false} InvertBits(x: int, k: nat)
    ensures Bit(Invert(x), k) == 1 <==> Bit(x, k) == 0
    decreases k
  {
    hide Bit;
    LowestBit(x);
    LowestBit(Invert(x));
    if k > 0 {
      BitShifts(x, k - 1);
      BitShifts(Invert(x), k - 1);
      assert Invert(x) / 2 == Invert(x / 2);
      InvertBits(x / 2, k - 1);
    }
  }
}
