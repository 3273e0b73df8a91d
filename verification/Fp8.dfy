/**
 E4M3 conversion (fp8.rs): 4 exponent bits, 3 mantissa bits, bias 7, no infinity; the code 0x7f is NaN
 and 0x7e is the largest value, 448. Exact values are counted in units of 2^-149 as in Fp16.
 */
module Fp8 {
  import opened Arithmetic
  import opened Rounding
  import opened MiniFloat
  import opened Fp16

  newtype Bits8 = q: int | 0 <= q < 0x100

  function Sign8(q: Bits8): nat { q as int / 0x80 }
  function Magnitude8(q: Bits8): nat { q as int % 0x80 }

  const E4M3_LARGEST: nat := 0x7e
  const E4M3_NAN: nat := 0x7f

  /** Magnitudes of E4M3 in units of 2^-149: its smallest subnormal is 2^-9. */
  function E4m3Values(): Table { Values(3, Pow2(140)) }

  /** `q` is the nearest E4M3 value, ties to even, saturating at 448; only NaN and infinity become NaN. */
  ghost predicate RoundsToE4m3(b: Bits32, q: Bits8) {
    && Sign8(q) == Sign32(b)
    && (Finite32(b) ==> NearestEven(E4m3Values(), E4M3_LARGEST, Exact32(b), Magnitude8(q)))
    && (!Finite32(b) ==> Magnitude8(q) == E4M3_NAN)
  }

  /** `b` is the binary32 with the same value as `q`; NaN stays NaN. */
  ghost predicate WidensE4m3(q: Bits8, b: Bits32) {
    && Sign32(b) == Sign8(q)
    && (Magnitude8(q) != E4M3_NAN ==> Finite32(b) && Exact32(b) == E4m3Values()(Magnitude8(q)))
    && (Magnitude8(q) == E4M3_NAN ==> Magnitude32(b) > 0x7f80_0000)
  }

  lemma E4m3ValuesIncrease()
    ensures Increasing(E4m3Values()) && E4m3Values()(0) == 0
  {
    ValuesIncrease(3, Pow2(140));
  }

  method F32ToE4m3(b: Bits32) returns (q: Bits8)
    ensures RoundsToE4m3(b, q)
  {
    var exp: int := Exponent32(b);
    var mant := Mantissa32(b);
    if exp == 0xff {
      return Pack8(Sign32(b), 0x7f);
    }
    var e: int := exp - 127 + 7;
    if e >= 0x10 {
      SaturatesE4m3(b);
      return PackE4m3(b, 0x7e);
    }
    if e <= 0 {
      if e < -3 {
        UnderflowsE4m3(b);
        return PackE4m3(b, 0);
      }
      var m8 := ShiftRightEven(mant + 0x80_0000, 21 - e);
      SubnormalE4m3(b, m8);
      if m8 == 8 {
        return PackE4m3(b, 0x08);
      }
      return PackE4m3(b, m8);
    }
    var m8 := mant / 0x10_0000;
    var rem := mant % 0x10_0000;
    ghost var c := e * 8 + m8 + if rem > 0x8_0000 || (rem == 0x8_0000 && m8 % 2 == 1) then 1 else 0;
    if rem > 0x8_0000 || (rem == 0x8_0000 && m8 % 2 == 1) {
      m8 := m8 + 1;
      if m8 == 8 {
        m8 := 0;
        e := e + 1;
      }
    }
    NormalE4m3(b, c);
    if e >= 0x10 || (e == 0x0f && m8 >= 7) {
      return PackE4m3(b, 0x7e);
    }
    return PackE4m3(b, e * 8 + m8);
  }

  /** The sign of `b` put in front of the rounded magnitude. */
  function PackE4m3(b: Bits32, c: nat): (q: Bits8)
    requires Finite32(b) && NearestEven(E4m3Values(), E4M3_LARGEST, Exact32(b), c)
    ensures RoundsToE4m3(b, q)
  {
    Pack8(Sign32(b), c)
  }

  function Pack8(sign: nat, c: nat): (q: Bits8)
    requires sign < 2 && c < 0x80
    ensures Sign8(q) == sign && Magnitude8(q) == c
  {
    (sign * 0x80 + c) as Bits8
  }

  /** From 512 up everything saturates. */
  lemma SaturatesE4m3(b: Bits32)
    requires 136 <= Exponent32(b) < 0xff
    ensures NearestEven(E4m3Values(), E4M3_LARGEST, Exact32(b), E4M3_LARGEST)
  {
    Fields32(b);
    Pow2Fields();
    E4m3ValuesIncrease();
    LargestE4m3();
    LargeProduct(0x80_0000 + Mantissa32(b), 23, Exponent32(b) - 1, 158);
    assert Pow2(9) == 512;
    Pow2Add(9, 149);
    SaturationIsNearest(E4m3Values(), E4M3_LARGEST, Exact32(b));
  }

  /** Below half of the smallest subnormal. */
  lemma UnderflowsE4m3(b: Bits32)
    requires Exponent32(b) < 117
    ensures NearestEven(E4m3Values(), E4M3_LARGEST, Exact32(b), 0)
  {
    SmallExact(b, 139);
    NarrowToZero(3, 140, E4M3_LARGEST, Exact32(b));
  }

  lemma SubnormalE4m3(b: Bits32, r: nat)
    requires 117 <= Exponent32(b) <= 120
    requires NearestQuotient(Mantissa32(b) + 0x80_0000, Pow2(141 - Exponent32(b)), r)
    ensures NearestEven(E4m3Values(), E4M3_LARGEST, Exact32(b), r)
  {
    Fields32(b);
    Pow2Fields();
    Pow2Mono(24, 3 + (141 - Exponent32(b)));
    NarrowToSubnormal(3, 140, E4M3_LARGEST, 141 - Exponent32(b), Exponent32(b),
                      Mantissa32(b) + 0x80_0000, Exact32(b), r);
  }

  /** A normal result, clamped away from the NaN code and from the binade above it. */
  lemma NormalE4m3(b: Bits32, r: nat)
    requires 121 <= Exponent32(b) < 136
    requires var c, rem := (Exponent32(b) - 120) * 8 + Mantissa32(b) / 0x10_0000, Mantissa32(b) % 0x10_0000;
             r == if rem > 0x8_0000 || (rem == 0x8_0000 && c % 2 == 1) then c + 1 else c
    ensures NearestEven(E4m3Values(), E4M3_LARGEST, Exact32(b), if r <= E4M3_LARGEST then r else E4M3_LARGEST)
  {
    Fields32(b);
    Pow2Fields();
    E4m3ValuesIncrease();
    var e, q, rem := Exponent32(b) - 120, Mantissa32(b) / 0x10_0000, Mantissa32(b) % 0x10_0000;
    assert e * 8 + q == e * Pow2(3) + q;
    NarrowNormal(3, 140, 0x80, 20, Exponent32(b), e, q, rem, e * 8 + q, 0x80_0000 + Mantissa32(b), Exact32(b), r);
    ClampedIsNearest(E4m3Values(), E4M3_LARGEST, 0x80, Exact32(b), r);
  }

  /** Position of the leading one bit of a subnormal mantissa. */
  function Log2(m: nat): (k: nat)
    requires 0 < m < 8
    ensures Pow2(k) <= m < 2 * Pow2(k) && k <= 2
  {
    assert Pow2(1) == 2 && Pow2(2) == 4;
    if m < 2 then 0 else if m < 4 then 1 else 2
  }

  method E4m3ToF32(q: Bits8) returns (b: Bits32)
    ensures WidensE4m3(q, b)
  {
    var e := Magnitude8(q) / 8;
    var m := Magnitude8(q) % 8;
    if e == 0 {
      if m == 0 {
        b := Pack32(Sign8(q), 0, 0);
        WidenedZero8(q, b);
      } else {
        var k := Log2(m);
        FractionFits(m, k);
        b := Pack32(Sign8(q), 118 + k, (m - Pow2(k)) * Pow2(23 - k));
        WidenedSubnormal8(q, b, m, k);
      }
    } else if e == 0x0f && m == 7 {
      b := Pack32(Sign8(q), 0xff, 0x40_0000);
    } else {
      b := Pack32(Sign8(q), e - 7 + 127, m * 0x10_0000);
      WidenedNormal8(q, b, e, m);
    }
  }

  lemma FractionFits(m: nat, k: nat)
    requires k <= 2 && Pow2(k) <= m < 2 * Pow2(k)
    ensures (m - Pow2(k)) * Pow2(23 - k) < 0x80_0000
  {
    Pow2Fields();
    Pow2Add(k, 23 - k);
    MulStrictlyMono(m - Pow2(k), Pow2(k), Pow2(23 - k));
  }

  lemma WidenedZero8(q: Bits8, b: Bits32)
    requires Magnitude8(q) == 0 && Sign32(b) == Sign8(q) && Magnitude32(b) == 0 && Exponent32(b) == 0
    ensures WidensE4m3(q, b)
  {
  }

  lemma WidenedSubnormal8(q: Bits8, b: Bits32, m: nat, k: nat)
    requires Magnitude8(q) == m < 8 && k <= 2 && Pow2(k) <= m
    requires Sign32(b) == Sign8(q) && Exponent32(b) == 118 + k && Mantissa32(b) == (m - Pow2(k)) * Pow2(23 - k)
    ensures WidensE4m3(q, b)
  {
    Fields32(b);
    Pow2Fields();
    Pow2Add(k, 23 - k);
    Distribute(Pow2(k), m - Pow2(k), Pow2(23 - k));
    assert 0x80_0000 + Mantissa32(b) == m * Pow2(23 - k);
    Pow2Add(23 - k, 117 + k);
    MulAssoc(m, Pow2(23 - k), Pow2(117 + k));
  }

  lemma WidenedNormal8(q: Bits8, b: Bits32, e: nat, m: nat)
    requires 1 <= e <= 15 && m < 8 && Magnitude8(q) == e * 8 + m != E4M3_NAN
    requires Sign32(b) == Sign8(q) && Exponent32(b) == e + 120 && Mantissa32(b) == m * 0x10_0000
    ensures WidensE4m3(q, b)
  {
    hide Pow2;
    Fields32(b);
    Pow2Fields();
    assert e * 8 + m == e * Pow2(3) + m;
    WidenNormal(3, 140, 20, e, e + 120, m);
  }

  function SignedE4m3(q: Bits8): int { Signed(Sign8(q) == 1, E4m3Values()(Magnitude8(q))) }

  /** Every non-NaN code survives the trip through binary32. */
  lemma E4m3RoundTrip(q: Bits8, b: Bits32, back: Bits8)
    requires WidensE4m3(q, b) && RoundsToE4m3(b, back)
    ensures back == q
  {
    hide Increasing, NearestEven, E4m3Values, Exact32, Finite32, Magnitude32, Sign8;
    NotFinite(b);
    if Magnitude8(q) != E4M3_NAN {
      E4m3ValuesIncrease();
      ExactValuesAreKept(E4m3Values(), E4M3_LARGEST, Exact32(b), Magnitude8(q), Magnitude8(back));
    }
    SameBits8(q, back);
  }

  lemma SameBits8(p: Bits8, q: Bits8)
    ensures Sign8(p) == Sign8(q) && Magnitude8(p) == Magnitude8(q) ==> p == q
  {
  }

  /** Quantization keeps the order of finite inputs, saturation and both signs included. */
  lemma E4m3IsMonotone(b1: Bits32, b2: Bits32, q1: Bits8, q2: Bits8)
    requires Finite32(b1) && Finite32(b2) && RoundsToE4m3(b1, q1) && RoundsToE4m3(b2, q2)
    requires Signed32(b1) <= Signed32(b2)
    ensures SignedE4m3(q1) <= SignedE4m3(q2)
  {
    E4m3ValuesIncrease();
    SignedRoundingIsMonotone(E4m3Values(), E4M3_LARGEST,
                             Sign32(b1) == 1, Exact32(b1), Magnitude8(q1),
                             Sign32(b2) == 1, Exact32(b2), Magnitude8(q2));
  }

  /**
   The quantization error for |y| <= 448 is at most max(|y| / 16, 2^-10); 2^-10 is half of 2^140 units.
   */
  lemma E4m3ErrorBound(b: Bits32, q: Bits8)
    requires Finite32(b) && RoundsToE4m3(b, q) && Exact32(b) <= 448 * Pow2(149)
    ensures var error := Dist(Exact32(b), E4m3Values()(Magnitude8(q)));
            16 * error <= Exact32(b) || 2 * error <= Pow2(140)
  {
    LargestE4m3();
    Pow2Fields();
    RelativeErrorBound(3, E4M3_LARGEST, Pow2(140), Exact32(b), Magnitude8(q));
  }

  lemma LargestE4m3()
    ensures E4m3Values()(E4M3_LARGEST) == 448 * Pow2(149)
  {
    hide Pow2;
    Pow2Fields();
    WidenNormal(3, 140, 5, 15, 150, 6);
  }

  /** Saturation: the code of 448 is given exactly from 432 up, halfway between 416 and 448. */
  lemma SaturationThreshold(b: Bits32, q: Bits8)
    requires Finite32(b) && RoundsToE4m3(b, q)
    ensures Magnitude8(q) == E4M3_LARGEST <==> Exact32(b) >= 432 * Pow2(149)
  {
    E4m3ValuesIncrease();
    LargestE4m3();
    SecondLargestE4m3();
    TopCodeThreshold(E4m3Values(), E4M3_LARGEST, Exact32(b), Magnitude8(q));
  }

  lemma SecondLargestE4m3()
    ensures E4m3Values()(E4M3_LARGEST - 1) == 416 * Pow2(149)
  {
    hide Pow2;
    Pow2Fields();
    WidenNormal(3, 140, 5, 15, 150, 5);
  }
}
