/** Bitwise operators on natural numbers, and what masking, shifting and combining with powers of
    two amounts to. */
module Bits {

  function Pow2(k: nat): (p: nat)
    ensures 0 < p
  {
    if k == 0 then 1 else 2 * Pow2(k - 1)
  }

  /** Bitwise and. */
  function And(x: nat, y: nat): nat {
    if x == 0 || y == 0 then 0 else 2 * And(x / 2, y / 2) + (x % 2) * (y % 2)
  }

  /** Bitwise or. */
  function Or(x: nat, y: nat): nat
    decreases x + y
  {
    if x == 0 then y else if y == 0 then x
    else 2 * Or(x / 2, y / 2) + (if x % 2 == 1 || y % 2 == 1 then 1 else 0)
  }

  /** Right shift. */
  function Shr(x: nat, k: nat): nat {
    if k == 0 then x else Shr(x / 2, k - 1)
  }

  lemma QuotientAndRemainder(x: nat, d: nat) returns (q: nat, r: nat)
    requires 0 < d
    ensures x == q * d + r && r == x % d < d
  {
    q, r := x / d, x % d;
  }

  lemma HalfOfDouble(x: nat, n: nat)
    requires 0 < n
    ensures x / 2 / n == x / (2 * n)
    ensures x % (2 * n) == 2 * ((x / 2) % n) + x % 2
  {
    var h := x / 2;
    var q, r := QuotientAndRemainder(h, n);
    DoubledProduct(q, n);
    DivModUnique(h, n, q, r);
    DivModUnique(x, 2 * n, q, 2 * r + x % 2);
  }

  lemma DivModUnique(x: nat, d: nat, q: nat, r: nat)
    requires r < d && x == q * d + r
    ensures x / d == q && x % d == r
  {
    var e := x / d - q;
    assert x == (x / d) * d + x % d;
    assert e * d == (x / d) * d - q * d;
    assert e * d == r - x % d;
    NoSmallMultiple(e, d);
  }

  lemma NoSmallMultiple(e: int, d: int)
    requires 0 < d && -d < e * d < d
    ensures e == 0
  {
    if e != 0 {
      AtLeastOnce(if e > 0 then e else -e, d);
    }
  }

  lemma AtLeastOnce(e: int, d: int)
    requires 1 <= e && 0 < d
    ensures e * d >= d
  {
    assert (e - 1) * d >= 0;
  }

  /** HASH_TO_BKT's mask picks the remainder, because the number of buckets is a power of two. */
  lemma {:induction false} MaskIsRemainder(x: nat, k: nat)
    ensures And(x, Pow2(k) - 1) == x % Pow2(k)
    decreases k
  {
    if k > 0 {
      var m := Pow2(k) - 1;
      assert m / 2 == Pow2(k - 1) - 1 && m % 2 == 1;
      MaskIsRemainder(x / 2, k - 1);
      HalfOfDouble(x, Pow2(k - 1));
      if x == 0 {
        DivModUnique(0, Pow2(k), 0, 0);
      }
    }
  }

  lemma {:induction false} ShiftIsQuotient(x: nat, k: nat)
    ensures Shr(x, k) == x / Pow2(k)
    decreases k
  {
    if k > 0 {
      ShiftIsQuotient(x / 2, k - 1);
      HalfOfDouble(x, Pow2(k - 1));
    }
  }

  lemma Pow2Double(k: nat)
    ensures Pow2(k + 1) == 2 * Pow2(k)
  {
  }

  /** HASH_TO_BKT, for a power-of-two number of buckets. */
  function ToBucket(hashv: nat, numBuckets: nat, ghost k: nat): (b: nat)
    requires numBuckets == Pow2(k)
    ensures b == hashv % numBuckets
  {
    MaskIsRemainder(hashv, k);
    And(hashv, numBuckets - 1)
  }

  lemma {:induction false} Pow2Sum(j: nat, k: nat)
    ensures Pow2(j + k) == Pow2(j) * Pow2(k)
    decreases j
  {
    if j > 0 {
      Pow2Sum(j - 1, k);
      Pow2Double(j - 1);
      Pow2Double(j - 1 + k);
      hide Pow2;
      DoubledFactor(Pow2(j - 1), Pow2(k));
    }
  }

  lemma DoubledFactor(a: nat, b: nat)
    ensures (2 * a) * b == 2 * (a * b)
  {
  }

  lemma Pow2Constants()
    ensures Pow2(16) == 0x1_0000 && Pow2(32) == 0x1_0000_0000
    ensures Pow2(48) == 0x1_0000_0000_0000 && Pow2(64) == 0x1_0000_0000_0000_0000
  {
    assert Pow2(4) == 2 * Pow2(3) == 4 * Pow2(2) == 8 * Pow2(1) == 16 * Pow2(0);
    hide Pow2;
    Pow2Sum(4, 4);
    Pow2Sum(8, 8);
    Pow2Sum(16, 16);
    Pow2Sum(16, 32);
    Pow2Sum(32, 32);
  }

  /** Combining works on high and low bits separately. */
  lemma {:induction false} OrByParts(a: nat, b: nat, c: nat, d: nat, k: nat)
    requires b < Pow2(k) && d < Pow2(k)
    ensures Or(b, d) < Pow2(k)
    ensures Or(a * Pow2(k) + b, c * Pow2(k) + d) == Or(a, c) * Pow2(k) + Or(b, d)
    decreases k
  {
    if k > 0 {
      OrByParts(a, b / 2, c, d / 2, k - 1);
      var p := Pow2(k - 1);
      DoubledProduct(a, p);
      DoubledProduct(c, p);
      DoubledProduct(Or(a, c), p);
      OrPartsStep(a * p, b, c * p, d, Or(a, c) * p, p);
    }
  }

  lemma DoubledProduct(a: nat, p: nat)
    ensures 0 <= a * p && a * (2 * p) == 2 * (a * p)
  {
  }

  lemma OrPartsStep(u: nat, b: nat, v: nat, d: nat, w: nat, p: nat)
    requires b < 2 * p && d < 2 * p
    requires Or(b / 2, d / 2) < p
    requires Or(u + b / 2, v + d / 2) == w + Or(b / 2, d / 2)
    ensures Or(b, d) < 2 * p
    ensures Or(2 * u + b, 2 * v + d) == 2 * w + Or(b, d)
  {
    OrStep(2 * u + b, 2 * v + d);
    OrStep(b, d);
    assert (2 * u + b) / 2 == u + b / 2 && (2 * v + d) / 2 == v + d / 2;
  }

  lemma OrStep(x: nat, y: nat)
    ensures Or(x, y) == 2 * Or(x / 2, y / 2) + (if x % 2 == 1 || y % 2 == 1 then 1 else 0)
  {
  }

  lemma OrZero(x: nat)
    ensures Or(0, x) == x && Or(x, 0) == x
  {
  }

  /** Or-ing anything below into all ones changes nothing. */
  lemma {:induction false} OrOnes(x: nat, k: nat)
    requires x < Pow2(k)
    ensures Or(x, Pow2(k) - 1) == Pow2(k) - 1
    decreases k
  {
    if k > 0 {
      hide Pow2, Or;
      Pow2Double(k - 1);
      HalfOfOnes(x, Pow2(k), Pow2(k - 1));
      OrOnes(x / 2, k - 1);
      OrStep(x, Pow2(k) - 1);
    }
  }

  lemma HalfOfOnes(x: nat, d: nat, p: nat)
    requires d == 2 * p && x < d
    ensures (d - 1) / 2 == p - 1 && (d - 1) % 2 == 1 && x / 2 < p
  {
  }

  /** Bitwise exclusive or. */
  function Xor(x: nat, y: nat): nat
    decreases x + y
  {
    if x == 0 then y else if y == 0 then x
    else 2 * Xor(x / 2, y / 2) + (if x % 2 != y % 2 then 1 else 0)
  }

  lemma XorStep(x: nat, y: nat)
    ensures Xor(x, y) == 2 * Xor(x / 2, y / 2) + (if x % 2 != y % 2 then 1 else 0)
  {
  }

  lemma XorHalves(z: nat, h: nat, x: nat, y: nat)
    requires z == 2 * h + (if x % 2 != y % 2 then 1 else 0)
    ensures z / 2 == h && (z % 2 != y % 2 <==> x % 2 == 1)
  {
  }

  lemma {:induction false} XorTwice(x: nat, y: nat)
    ensures Xor(Xor(x, y), y) == x
    decreases x + y
  {
    if x != 0 || y != 0 {
      XorTwice(x / 2, y / 2);
      XorStep(x, y);
      XorStep(Xor(x, y), y);
      hide Xor;
      XorHalves(Xor(x, y), Xor(x / 2, y / 2), x, y);
    }
  }

  lemma {:induction false} XorFits(x: nat, y: nat, k: nat)
    requires x < Pow2(k) && y < Pow2(k)
    ensures Xor(x, y) < Pow2(k)
    decreases k
  {
    if k > 0 {
      XorFits(x / 2, y / 2, k - 1);
      XorStep(x, y);
    }
  }
}
