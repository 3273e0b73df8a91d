/** The few facts about products and quotients that several modules need, each proved on plain numbers. */
module Arithmetic {

  function Min(a: int, b: int): int {
    if a <= b then a else b
  }

  lemma MulMono(a: int, b: int, k: nat)
    requires a <= b
    ensures a * k <= b * k
  {
    var d := b - a;
    assert d * k >= 0 && b * k == a * k + d * k;
  }

  lemma MulStrictlyMono(a: int, b: int, k: nat)
    requires a < b && k > 0
    ensures a * k < b * k
  {
    MulMono(a + 1, b, k);
    assert (a + 1) * k == a * k + k;
  }

  /** A factor can be taken off both sides. */
  lemma LessFromMul(a: int, b: int, k: nat)
    requires a * k < b * k
    ensures a < b
  {
    if a >= b {
      MulMono(b, a, k);
    }
  }

  lemma AtMostFromMul(a: int, b: int, k: nat)
    requires k > 0 && a * k <= b * k
    ensures a <= b
  {
    if a > b {
      MulStrictlyMono(b, a, k);
    }
  }

  lemma MulAssoc(a: int, b: int, c: int)
    ensures (a * b) * c == a * (b * c)
  {
  }

  lemma Distribute(a: int, b: int, k: int)
    ensures (a + b) * k == a * k + b * k
  {
  }

  lemma RealStrictlyMono(a: real, b: real, k: real)
    requires a < b && k > 0.0
    ensures a * k < b * k
  {
    var d := b - a;
    assert d * k > 0.0 && b * k == a * k + d * k;
  }

  // ----- division

  /** Quotient and remainder are determined by the division equation. */
  lemma FieldsUnique(d: nat, x: int, q: int, r: nat)
    requires d > 0 && r < d && x == q * d + r
    ensures x / d == q && x % d == r
  {
    var p, s := x / d, x % d;
    assert x == p * d + s;
    Distribute(p, 1, d);
    Distribute(q, 1, d);
    if p < q {
      MulMono(p + 1, q, d);
    } else if p > q {
      MulMono(q + 1, p, d);
    }
  }

  lemma DivMono(a: nat, b: nat, d: nat)
    requires a <= b && d > 0
    ensures a / d <= b / d
  {
    var p, q := a / d, b / d;
    assert a == p * d + a % d && b == q * d + b % d;
    Distribute(q, 1, d);
    if q < p {
      MulMono(q + 1, p, d);
    }
  }

  /** Whole divisors in front shift the quotient and keep the remainder. */
  lemma AddMultiple(x: nat, k: nat, d: nat)
    requires d > 0
    ensures (k * d + x) / d == k + x / d && (k * d + x) % d == x % d
  {
    assert x == (x / d) * d + x % d;
    Distribute(k, x / d, d);
    FieldsUnique(d, k * d + x, k + x / d, x % d);
  }

  function Quotient(i: nat, d: nat): nat
    requires d > 0
  {
    i / d
  }

  function Remainder(i: nat, d: nat): (r: nat)
    requires d > 0
    ensures r < d
  {
    i % d
  }

  function DivCeil(n: nat, d: nat): nat
    requires d > 0
  {
    (n + d - 1) / d
  }

  /** Rounding up counts the blocks of `d` that cover `n`, the last one possibly short. */
  lemma DivCeilCovers(n: nat, d: nat)
    requires d > 0
    ensures DivCeil(n, d) * d >= n
    ensures n > 0 ==> (DivCeil(n, d) - 1) * d < n
  {
    var q, r := (n + d - 1) / d, (n + d - 1) % d;
    assert n + d - 1 == q * d + r;
    assert (q - 1) * d == q * d - d;
  }

  lemma DivCeilAddMultiple(n: nat, k: nat, d: nat)
    requires d > 0
    ensures DivCeil(k * d + n, d) == k + DivCeil(n, d)
  {
    AddMultiple(n + d - 1, k, d);
    assert k * d + n + d - 1 == k * d + (n + d - 1);
  }

  lemma SmallDivCeil(n: nat, d: nat)
    requires n <= d && d > 0
    ensures DivCeil(n, d) == if n == 0 then 0 else 1
  {
    if n == 0 {
      FieldsUnique(d, d - 1, 0, d - 1);
    } else {
      FieldsUnique(d, n + d - 1, 1, n - 1);
    }
  }

  /** The blocks of `n` elements: one in front, and those of the rest. */
  lemma CeilStep(n: nat, d: nat)
    requires n > 0 && d > 0
    ensures DivCeil(n, d) == 1 + DivCeil(n - Min(d, n), d)
    ensures DivCeil(0, d) == 0
  {
    hide DivCeil;
    SmallDivCeil(0, d);
    if n >= d {
      DivCeilAddMultiple(n - d, 1, d);
    } else {
      SmallDivCeil(n, d);
    }
  }

  /** Element `i` of `n` lies in one of the blocks that cover them. */
  lemma BlockInside(i: nat, n: nat, d: nat)
    requires i < n && d > 0
    ensures Quotient(i, d) < DivCeil(n, d)
  {
    DivCeilCovers(n, d);
    assert i == (i / d) * d + i % d;
    LessFromMul(i / d, DivCeil(n, d), d);
  }

  // ----- rounding a quotient

  function Dist(x: int, y: int): nat {
    if x <= y then y - x else x - y
  }

  /**
   `q` is `m / full` rounded to nearest, ties to even: no multiple of `full` is nearer to `m`, and an equally near
   one means that `q` is even.
   */
  ghost predicate NearestQuotient(m: nat, full: nat, q: nat) {
    forall n: nat :: NotNearer(m, full, q, n)
  }

  predicate NotNearer(m: nat, full: nat, q: nat, n: nat) {
    n != q ==> Dist(m, q * full) < Dist(m, n * full) || (Dist(m, q * full) == Dist(m, n * full) && q % 2 == 0)
  }

  /** The remainder test finds the nearest quotient. */
  lemma StepIsNearest(m: nat, full: nat, floor: nat, rem: nat, q: nat)
    requires full > 0 && floor == Quotient(m, full) && rem == Remainder(m, full)
    requires q == if 2 * rem > full || (2 * rem == full && floor % 2 == 1) then floor + 1 else floor
    ensures NearestQuotient(m, full, q)
  {
    assert m == floor * full + rem;
    Distribute(floor, 1, full);
    forall n: nat
      ensures NotNearer(m, full, q, n)
    {
      OtherQuotient(m, full, floor, rem, q, n);
    }
  }

  lemma OtherQuotient(m: nat, full: nat, floor: nat, rem: nat, q: nat, n: nat)
    requires m == floor * full + rem && rem < full && (floor + 1) * full == floor * full + full
    requires q == if 2 * rem > full || (2 * rem == full && floor % 2 == 1) then floor + 1 else floor
    ensures NotNearer(m, full, q, n)
  {
    if n < floor {
      MulMono(n + 1, floor, full);
      Distribute(n, 1, full);
    } else if n > floor + 1 {
      MulMono(floor + 2, n, full);
      Distribute(floor + 1, 1, full);
    }
  }

  /** There is only one nearest quotient, so it is the one of the remainder test. */
  lemma NearestIsStep(m: nat, full: nat, q: nat)
    requires full > 0 && NearestQuotient(m, full, q)
    ensures q == if 2 * (m % full) > full || (2 * (m % full) == full && (m / full) % 2 == 1) then m / full + 1
                 else m / full
  {
    var rem := m % full;
    var r := if 2 * rem > full || (2 * rem == full && (m / full) % 2 == 1) then m / full + 1 else m / full;
    StepIsNearest(m, full, m / full, rem, r);
    NearestIsUnique(m, full, q, r);
  }

  /** Two equally near quotients would be neighbours and both even. */
  lemma NearestIsUnique(m: nat, full: nat, q: nat, r: nat)
    requires full > 0 && NearestQuotient(m, full, q) && NearestQuotient(m, full, r)
    ensures q == r
  {
    assert NotNearer(m, full, q, r) && NotNearer(m, full, r, q);
    var low, high := if q < r then q else r, if q < r then r else q;
    assert NotNearer(m, full, q, low + 1);
    MulStrictlyMono(low, low + 1, full);
    if low + 1 < high {
      MulStrictlyMono(low + 1, high, full);
    }
  }
}
