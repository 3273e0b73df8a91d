/**
 Binary floating-point magnitudes as integers.

 A magnitude code is the bit pattern of a float without its sign: exponent field
 above, `mb` mantissa bits below. Its value is measured in units of the format's
 smallest subnormal, so every value is an exact natural number. One format's values
 are compared with another's by scaling with the (power of two) ratio of the units.
 The encoding is that of IEEE 754-2019, section 3.4.
 */
module MiniFloat {
  import opened Arithmetic
  import opened Rounding

  function Pow2(n: nat): (p: nat)
    ensures p > 0
  {
    if n == 0 then 1 else 2 * Pow2(n - 1)
  }

  lemma {:induction false} Pow2Add(a: nat, b: nat)
    ensures Pow2(a + b) == Pow2(a) * Pow2(b)
  {
    if a > 0 {
      Pow2Add(a - 1, b);
      MulAssoc(2, Pow2(a - 1), Pow2(b));
    }
  }

  /** The powers of two that bound the fields of the formats in use. */
  lemma Pow2Fields()
    ensures Pow2(3) == 8 && Pow2(5) == 0x20 && Pow2(7) == 0x80 && Pow2(9) == 0x200
    ensures Pow2(10) == 0x400 && Pow2(23) == 0x80_0000
    ensures Pow2(12) == 0x1000 && Pow2(15) == 0x8000 && Pow2(19) == 0x8_0000
    ensures Pow2(13) == 0x2000 && Pow2(16) == 0x1_0000 && Pow2(20) == 0x10_0000 && Pow2(24) == 0x100_0000
  {
  }

  /** Value of magnitude code `c` with `mb` mantissa bits, in units of the smallest subnormal. */
  function Magnitude(mb: nat, c: nat): nat {
    var one := Pow2(mb);
    if c < one then c else (one + c % one) * Pow2(c / one - 1)
  }

  /** Distance from code `c` to the next larger code. */
  function Ulp(mb: nat, c: nat): (u: nat)
    ensures u > 0
  {
    var one := Pow2(mb);
    if c < one then 1 else Pow2(c / one - 1)
  }

  lemma NextMagnitude(mb: nat, c: nat)
    ensures Magnitude(mb, c + 1) == Magnitude(mb, c) + Ulp(mb, c)
  {
    var one := Pow2(mb);
    var q, r := c / one, c % one;
    assert c == q * one + r;
    if c + 1 < one {
    } else if c + 1 == one {
      FieldsUnique(one, c + 1, 1, 0);
    } else if r + 1 < one {
      FieldsUnique(one, c + 1, q, r + 1);
      Distribute(one + r, 1, Pow2(q - 1));
    } else {
      Distribute(q, 1, one);
      FieldsUnique(one, c + 1, q + 1, 0);
      CarryIntoExponent(one, Pow2(q - 1));
    }
  }

  lemma CarryIntoExponent(one: nat, p: nat)
    requires one > 0
    ensures one * (2 * p) == (one + (one - 1)) * p + p
  {
    Distribute(one, one - 1, p);
    Distribute(one - 1, 1, p);
    MulAssoc(one, 2, p);
  }

  /** Fields put together and taken apart again. */
  lemma NormalMagnitude(mb: nat, e: nat, m: nat)
    requires e > 0 && m < Pow2(mb)
    ensures Magnitude(mb, e * Pow2(mb) + m) == (Pow2(mb) + m) * Pow2(e - 1)
    ensures Ulp(mb, e * Pow2(mb) + m) == Pow2(e - 1)
  {
    var one := Pow2(mb);
    var c := e * one + m;
    FieldsUnique(one, c, e, m);
    MulMono(1, e, one);
    assert c >= one && c / one == e && c % one == m;
  }

  lemma {:induction false} MagnitudeStrictlyIncreases(mb: nat, c: nat, d: nat)
    requires c < d
    ensures Magnitude(mb, c) < Magnitude(mb, d)
    decreases d
  {
    NextMagnitude(mb, d - 1);
    if c < d - 1 {
      MagnitudeStrictlyIncreases(mb, c, d - 1);
    }
  }

  /** The values of a format, in units `unit` times smaller than its smallest subnormal. */
  function Values(mb: nat, unit: nat): Table {
    (c: nat) => Magnitude(mb, c) * unit
  }

  lemma ValuesIncrease(mb: nat, unit: nat)
    requires unit > 0
    ensures Increasing(Values(mb, unit))
  {
    forall c: nat, d: nat | c < d
      ensures Values(mb, unit)(c) < Values(mb, unit)(d)
    {
      MagnitudeStrictlyIncreases(mb, c, d);
      MulStrictlyMono(Magnitude(mb, c), Magnitude(mb, d), unit);
    }
  }

  lemma NextValue(mb: nat, unit: nat, c: nat)
    ensures Values(mb, unit)(c + 1) == Values(mb, unit)(c) + Ulp(mb, c) * unit
  {
    NextMagnitude(mb, c);
    Distribute(Magnitude(mb, c), Ulp(mb, c), unit);
  }

  /**
   Error of nearest rounding inside the range: at most half the smallest subnormal, or at most
   the relative error 2^-(mb+1) of the format, whichever is larger.
   */
  lemma RelativeErrorBound(mb: nat, top: nat, unit: nat, x: nat, r: nat)
    requires unit > 0 && x <= Values(mb, unit)(top)
    requires NearestEven(Values(mb, unit), top, x, r)
    ensures 2 * Dist(x, Values(mb, unit)(r)) <= unit || 2 * Pow2(mb) * Dist(x, Values(mb, unit)(r)) <= x
  {
    ValuesIncrease(mb, unit);
    assert Values(mb, unit)(0) == 0;
    var c := HalfGapBound(Values(mb, unit), top, x, r);
    NextValue(mb, unit, c);
    if c >= Pow2(mb) {
      NormalUlp(mb, unit, c);
      HalfUlpIsRelative(Dist(x, Values(mb, unit)(r)), Ulp(mb, c) * unit, Pow2(mb), x);
    }
  }

  /** A normal value is at least 2^mb of its own ulps. */
  lemma NormalUlp(mb: nat, unit: nat, c: nat)
    requires c >= Pow2(mb)
    ensures Pow2(mb) * (Ulp(mb, c) * unit) <= Magnitude(mb, c) * unit
  {
    var one := Pow2(mb);
    var p := Pow2(c / one - 1);
    MulMono(one, one + c % one, p);
    MulMono(one * p, (one + c % one) * p, unit);
    MulAssoc(one, p, unit);
  }

  lemma HalfUlpIsRelative(err: nat, u: nat, one: nat, x: nat)
    requires 2 * err <= u && one * u <= x
    ensures 2 * one * err <= x
  {
    MulMono(2 * err, u, one);
    MulAssoc(one, 2, err);
  }

  /** Drops the low `shift` bits of `m`, rounding to nearest with ties to even. */
  method ShiftRightEven(m: nat, shift: nat) returns (q: nat)
    requires shift > 0
    ensures NearestQuotient(m, Pow2(shift), q)
  {
    var full, half := Pow2(shift), Pow2(shift - 1);
    assert full == 2 * half;
    hide *;
    q := Quotient(m, full);
    var rem := Remainder(m, full);
    ghost var floor := q;
    if rem > half || (rem == half && q % 2 == 1) {
      q := q + 1;
    }
    StepIsNearest(m, full, floor, rem, q);
  }

  /**
   Narrowing a normal number to a normal number with `s` fewer mantissa bits: round the dropped bits
   `rem`. The exponents `from` and `to` are the biased ones; the target's unit is 2^k source units.
   */
  lemma NarrowNormal(mb: nat, k: nat, top: nat, s: nat, from: nat, to: nat, q: nat, rem: nat, c: nat, m: nat, x: nat,
                     r: nat)
    requires from > 0 && to > 0 && s > 0 && to - 1 + k == s + (from - 1)
    requires q < Pow2(mb) && rem < Pow2(s)
    requires m == (Pow2(mb) + q) * Pow2(s) + rem && x == m * Pow2(from - 1)
    requires c == to * Pow2(mb) + q
    requires r == (if rem > Pow2(s - 1) || (rem == Pow2(s - 1) && c % 2 == 1) then c + 1 else c) <= top
    ensures NearestEven(Values(mb, Pow2(k)), top, x, r)
  {
    var p := Pow2(from - 1);
    NormalMagnitude(mb, to, q);
    NormalValue(mb, k, to, q);
    Pow2Add(to - 1, k);
    Pow2Add(s, from - 1);
    NextValue(mb, Pow2(k), c);
    ValuesIncrease(mb, Pow2(k));
    Regroup(Pow2(mb) + q, Pow2(s), rem, p);
    RoundStep(Values(mb, Pow2(k)), top, x, c, rem, Pow2(s - 1), p, r);
  }

  /** Narrowing a normal number into the subnormal range of the target: round the `s` dropped bits. */
  lemma NarrowToSubnormal(mb: nat, k: nat, top: nat, s: nat, from: nat, m: nat, x: nat, r: nat)
    requires from > 0 && s > 0 && k == s + (from - 1)
    requires m < Pow2(mb + s) && x == m * Pow2(from - 1)
    requires NearestQuotient(m, Pow2(s), r) && Pow2(mb) <= top
    ensures NearestEven(Values(mb, Pow2(k)), top, x, r)
    ensures r <= Pow2(mb)
  {
    var q, rem, p := m / Pow2(s), m % Pow2(s), Pow2(from - 1);
    NearestIsStep(m, Pow2(s), r);
    Pow2Add(mb, s);
    QuotientBelow(m, Pow2(s), Pow2(mb));
    Pow2Add(s, from - 1);
    NextValue(mb, Pow2(k), q);
    ValuesIncrease(mb, Pow2(k));
    Regroup(q, Pow2(s), rem, p);
    RoundStep(Values(mb, Pow2(k)), top, x, q, rem, Pow2(s - 1), p, r);
  }

  lemma QuotientBelow(m: nat, full: nat, bound: nat)
    requires full > 0 && m < bound * full
    ensures m == (m / full) * full + m % full
    ensures m / full < bound
  {
    var q := m / full;
    assert (bound - q) * full == bound * full - q * full;
    assert bound - q <= 0 ==> (q - bound) * full >= 0;
  }

  /** Widening a normal number by `s` mantissa bits keeps its value. */
  lemma WidenNormal(mb: nat, k: nat, s: nat, from: nat, to: nat, q: nat)
    requires from > 0 && to > 0 && from - 1 + k == s + (to - 1) && q < Pow2(mb)
    ensures Values(mb, Pow2(k))(from * Pow2(mb) + q) == ((Pow2(mb) + q) * Pow2(s)) * Pow2(to - 1)
  {
    NormalValue(mb, k, from, q);
    Pow2Add(s, to - 1);
    MulAssoc(Pow2(mb) + q, Pow2(s), Pow2(to - 1));
  }

  lemma NormalValue(mb: nat, k: nat, to: nat, q: nat)
    requires to > 0 && q < Pow2(mb)
    ensures Values(mb, Pow2(k))(to * Pow2(mb) + q) == (Pow2(mb) + q) * Pow2(to - 1 + k)
  {
    NormalMagnitude(mb, to, q);
    Pow2Add(to - 1, k);
    MulAssoc(Pow2(mb) + q, Pow2(to - 1), Pow2(k));
  }

  /** The first value of a binade is a power of two. */
  lemma BinadeStart(mb: nat, k: nat, to: nat)
    requires to > 0
    ensures Values(mb, Pow2(k))(to * Pow2(mb)) == Pow2(mb + (to - 1) + k)
  {
    NormalValue(mb, k, to, 0);
    Pow2Add(mb, to - 1 + k);
  }

  /** Anything below half of the smallest subnormal is rounded to zero. */
  lemma NarrowToZero(mb: nat, k: nat, top: nat, x: nat)
    requires k > 0 && x < Pow2(k - 1)
    ensures NearestEven(Values(mb, Pow2(k)), top, x, 0)
  {
    ValuesIncrease(mb, Pow2(k));
    NextValue(mb, Pow2(k), 0);
    BeatsNeighbours(Values(mb, Pow2(k)), top, x, 0);
  }

  /** A significand of at most `n` bits stays below the next power of two. */
  lemma SmallProduct(m: nat, n: nat, e: nat, limit: nat)
    requires m < Pow2(n) && n + e <= limit
    ensures m * Pow2(e) < Pow2(limit)
  {
    MulStrictlyMono(m, Pow2(n), Pow2(e));
    Pow2Add(n, e);
    Pow2Mono(n + e, limit);
  }

  /** A significand of at least 2^n reaches the power of two. */
  lemma LargeProduct(m: nat, n: nat, e: nat, limit: nat)
    requires Pow2(n) <= m && limit <= n + e
    ensures Pow2(limit) <= m * Pow2(e)
  {
    MulMono(Pow2(n), m, Pow2(e));
    Pow2Add(n, e);
    Pow2Mono(limit, n + e);
  }

  lemma Pow2Mono(a: nat, b: nat)
    requires a <= b
    ensures Pow2(a) <= Pow2(b)
  {
    Pow2Add(a, b - a);
    MulMono(1, Pow2(b - a), Pow2(a));
  }

  lemma Regroup(q: int, full: int, rem: int, p: int)
    ensures (q * full + rem) * p == q * (full * p) + rem * p
  {
    Distribute(q * full, rem, p);
    MulAssoc(q, full, p);
  }

}
