/** Division and modulus by a symbolic positive divisor, kept apart from the models. */
module Arith {

  lemma MulBound(m: nat, x: int)
    ensures x >= 1 ==> m * x >= m
    ensures x <= -1 ==> m * x + m <= 0
  {
  }

  /** Quotient and remainder are determined by n == d * q + r with r below d. */
  lemma DivModUnique(n: nat, d: nat, q: int, r: nat)
    requires n == d * q + r && r < d
    ensures n / d == q && n % d == r
  {
    var q', r' := n / d, n % d;
    assert d * (q' - q) == r - r';
    MulBound(d, q' - q);
  }

  /** Adding a multiple of the modulus changes nothing. */
  lemma ModAddMultiple(x: nat, d: nat, m: nat)
    requires 0 < d
    ensures (d * m + x) % d == x % d
  {
    assert d * m + x == d * (m + x / d) + x % d;
    DivModUnique(d * m + x, d, m + x / d, x % d);
  }

  /** A divisor of the modulus sees through it. */
  lemma ModOfMod(x: nat, big: nat, d: nat)
    requires 0 < d && 0 < big && big % d == 0
    ensures x % big % d == x % d
  {
    var k := big / d;
    assert big == d * k;
    calc {
      x;
      big * (x / big) + x % big;
      d * k * (x / big) + x % big;
      d * (k * (x / big)) + x % big;
    }
    ModAddMultiple(x % big, d, k * (x / big));
  }

  /** Distinct positions less than d apart have distinct residues. */
  lemma ResiduesDiffer(base: nat, j: nat, k: nat, d: nat)
    requires 0 < d && j < k < j + d
    ensures (base + j) % d != (base + k) % d
  {
    var q, r := (base + j) / d, (base + j) % d;
    var q', r' := (base + k) / d, (base + k) % d;
    assert d * (q' - q) + (r' - r) == k - j;
    MulBound(d, q' - q);
  }

  // ---- the same operations by repeated subtraction and addition -------------------
  // A definition the solver can step through without non-linear reasoning; each is
  // shown to be the operator.

  function Div(n: nat, d: nat): nat
    requires 0 < d
  {
    if n < d then 0 else Div(n - d, d) + 1
  }

  function Mod(n: nat, d: nat): (r: nat)
    requires 0 < d
    ensures r < d
  {
    if n < d then n else Mod(n - d, d)
  }

  function Mul(k: nat, d: nat): nat { if k == 0 then 0 else Mul(k - 1, d) + d }

  lemma {:induction false} MulIsTimes(k: nat, d: nat)
    ensures Mul(k, d) == k * d
  {
    if k > 0 { MulIsTimes(k - 1, d); }
  }

  lemma {:induction false} DivModAre(n: nat, d: nat)
    requires 0 < d
    ensures Div(n, d) == n / d && Mod(n, d) == n % d
    decreases n
  {
    if n < d {
      DivModUnique(n, d, 0, n);
    } else {
      DivModAre(n - d, d);
      DivModUnique(n, d, (n - d) / d + 1, (n - d) % d);
    }
  }

  /** Quotient and remainder put together again. */
  lemma {:induction false} DivMod(n: nat, d: nat)
    requires 0 < d
    ensures n == Mul(Div(n, d), d) + Mod(n, d)
    decreases n
  {
    if n >= d { DivMod(n - d, d); }
  }

  lemma {:induction false} DivModOf(q: nat, d: nat, r: nat)
    requires r < d
    ensures Div(Mul(q, d) + r, d) == q && Mod(Mul(q, d) + r, d) == r
  {
    if q > 0 { DivModOf(q - 1, d, r); }
  }

  lemma {:induction false} MulMonotone(j: nat, k: nat, d: nat)
    requires j < k
    ensures Mul(j, d) + d <= Mul(k, d)
  {
    if j < k - 1 { MulMonotone(j, k - 1, d); }
  }

  /** Staying inside one unit. */
  lemma DivSame(n: nat, m: nat, d: nat)
    requires 0 < d && Mod(n, d) + m < d
    ensures Div(n + m, d) == Div(n, d) && Mod(n + m, d) == Mod(n, d) + m
  {
    DivMod(n, d);
    DivModOf(Div(n, d), d, Mod(n, d) + m);
  }

  /** Reaching the start of the next unit. */
  lemma DivNext(n: nat, m: nat, d: nat)
    requires 0 < d && Mod(n, d) + m == d
    ensures Div(n + m, d) == Div(n, d) + 1 && Mod(n + m, d) == 0
  {
    DivMod(n, d);
    DivModOf(Div(n, d) + 1, d, 0);
  }
}
