/** Bitwise operations on naturals, bit by bit. */
module Bits {
  import Arith

  predicate Bit(x: nat, k: nat) { if k == 0 then x % 2 == 1 else Bit(x / 2, k - 1) }

  function Pow2(k: nat): (r: nat)
    ensures r >= 1
  {
    if k == 0 then 1 else 2 * Pow2(k - 1)
  }

  /** x | y. */
  function Or(x: nat, y: nat): nat {
    if x == 0 && y == 0 then 0
    else 2 * Or(x / 2, y / 2) + (if x % 2 == 1 || y % 2 == 1 then 1 else 0)
  }

  /** x & y. */
  function And(x: nat, y: nat): nat {
    if x == 0 || y == 0 then 0
    else 2 * And(x / 2, y / 2) + (if x % 2 == 1 && y % 2 == 1 then 1 else 0)
  }

  lemma {:induction false} OrBits(x: nat, y: nat, k: nat)
    ensures Bit(Or(x, y), k) <==> Bit(x, k) || Bit(y, k)
    decreases x + y + k
  {
    if k > 0 {
      if x == 0 && y == 0 { NoBits(k); } else { OrBits(x / 2, y / 2, k - 1); }
    }
  }

  lemma {:induction false} NoBits(k: nat)
    ensures !Bit(0, k)
  {
    if k > 0 { NoBits(k - 1); }
  }

  lemma {:induction false} PowBits(j: nat, k: nat)
    ensures Bit(Pow2(j), k) <==> j == k
  {
    if j > 0 && k > 0 { PowBits(j - 1, k - 1); }
    if j == 0 && k > 0 { NoBits(k - 1); }
  }

  /** Bits below n stay below n. */
  lemma {:induction false} OrBelow(x: nat, y: nat, n: nat)
    requires x < Pow2(n) && y < Pow2(n)
    ensures Or(x, y) < Pow2(n)
    decreases n
  {
    if n > 0 { OrBelow(x / 2, y / 2, n - 1); }
  }

  lemma {:induction false} PowGrows(j: nat, k: nat)
    requires j < k
    ensures Pow2(j) < Pow2(k)
  {
    if j < k - 1 { PowGrows(j, k - 1); }
  }

  /** Or of numbers with no common bits is their sum: x is a multiple of 2^n, y below it. */
  lemma {:induction false} OrIsSum(x: nat, y: nat, n: nat)
    requires x % Pow2(n) == 0 && y < Pow2(n)
    ensures Or(x, y) == x + y
    decreases n
  {
    if n == 0 {
      OrZero(x);
    } else {
      EvenHalf(x, n);
      OrIsSum(x / 2, y / 2, n - 1);
    }
  }

  lemma {:induction false} OrZero(x: nat)
    ensures Or(x, 0) == x
  {
    if x > 0 { OrZero(x / 2); }
  }

  lemma EvenHalf(x: nat, n: nat)
    requires 0 < n && x % Pow2(n) == 0
    ensures x % 2 == 0 && x / 2 % Pow2(n - 1) == 0
  {
    var h := Pow2(n - 1);
    var k := x / Pow2(n);
    assert x == 2 * h * k == 2 * (h * k);
    assert x / 2 == h * k;
    ModMul(h, k);
  }

  lemma ModMul(h: nat, k: nat)
    requires h > 0
    ensures h * k % h == 0
  {
    Arith.DivModUnique(h * k, h, k, 0);
  }

  /** x & (2^n - 1) is the remainder modulo 2^n. */
  lemma {:induction false} MaskIsMod(x: nat, n: nat)
    ensures And(x, Pow2(n) - 1) == x % Pow2(n)
    decreases n
  {
    if n > 0 {
      MaskIsMod(x / 2, n - 1);
      var h := Pow2(n - 1);
      assert (Pow2(n) - 1) / 2 == h - 1 && (Pow2(n) - 1) % 2 == 1;
      HalfMod(x, h);
    }
  }

  lemma HalfMod(x: nat, h: nat)
    requires h > 0
    ensures x % (2 * h) == 2 * (x / 2 % h) + x % 2
  {
    var q := x / 2 / h;
    var r := 2 * (x / 2 % h) + x % 2;
    assert x / 2 == h * q + x / 2 % h;
    assert x == 2 * h * q + r by { assert x == 2 * (x / 2) + x % 2; assert 2 * (h * q) == 2 * h * q; }
    Arith.DivModUnique(x, 2 * h, q, r);
  }

  lemma HalfDiv(x: nat, h: nat)
    requires h > 0
    ensures x / 2 / h == x / (2 * h)
  {
    HalfMod(x, h);
    var q := x / 2 / h;
    assert x / 2 == h * q + x / 2 % h;
    Double(h, q);
    Arith.DivModUnique(x, 2 * h, q, 2 * (x / 2 % h) + x % 2);
  }

  /** Bit k is the lowest one of x / 2^k. */
  lemma {:induction false} BitIs(x: nat, k: nat)
    ensures Bit(x, k) <==> x / Pow2(k) % 2 == 1
    decreases k
  {
    if k > 0 {
      BitIs(x / 2, k - 1);
      HalfDiv(x, Pow2(k - 1));
    }
  }

  // ---- powers of two in products -----------------------------------------------------------

  lemma Double(x: nat, y: nat)
    ensures 2 * x * y == 2 * (x * y) == x * (2 * y)
  {
  }

  lemma {:induction false} PowSum(j: nat, k: nat)
    ensures Pow2(j) * Pow2(k) == Pow2(j + k)
  {
    if j > 0 {
      PowSum(j - 1, k);
      Double(Pow2(j - 1), Pow2(k));
    }
  }

  lemma OddProduct(d: nat, b: nat)
    requires d % 2 == 1 && b % 2 == 1
    ensures d * b % 2 == 1
  {
    var x, y := d / 2, b / 2;
    calc {
      d * b;
      (2 * x + 1) * (2 * y + 1);
      2 * (2 * x * y + x + y) + 1;
    }
  }

  /** The twos of a product are divided among its factors. */
  lemma {:induction false} TwosShared(d: nat, b: nat, m: nat, n: nat) returns (j: nat, e: nat, f: nat)
    requires d * b == m * Pow2(n)
    ensures j <= n && d == e * Pow2(j) && b == f * Pow2(n - j)
    decreases n
  {
    if n == 0 { return 0, d, b; }
    Double(m, Pow2(n - 1));
    if d % 2 == 0 {
      Double(d / 2, b);
      j, e, f := TwosShared(d / 2, b, m, n - 1);
      Double(e, Pow2(j));
      j := j + 1;
    } else {
      if b % 2 == 1 { OddProduct(d, b); }
      Double(d, b / 2);
      j, e, f := TwosShared(d, b / 2, m, n - 1);
      Double(f, Pow2(n - 1 - j));
    }
  }
}
