/**
 Host-side binary16 and bfloat16 conversion (fp16.rs).

 Bit patterns are natural numbers; a shift by k is a division or multiplication by 2^k, a mask of
 the low k bits is a remainder, and an `|` of disjoint fields is a sum. Exact values of
 finite floats are counted in units of 2^-149, the smallest binary32 subnormal.
 */
module Fp16 {
  import opened Arithmetic
  import opened Rounding
  import opened MiniFloat

  newtype Bits32 = b: int | 0 <= b < 0x1_0000_0000
  newtype Bits16 = h: int | 0 <= h < 0x1_0000

  // The fields of a binary32 pattern.
  function Sign32(b: Bits32): nat { b as int / 0x8000_0000 }
  function Magnitude32(b: Bits32): nat { b as int % 0x8000_0000 }
  function Exponent32(b: Bits32): nat { (b as int / 0x80_0000) % 0x100 }
  function Mantissa32(b: Bits32): nat { b as int % 0x80_0000 }

  predicate Finite32(b: Bits32) { Exponent32(b) != 0xff }

  function Pack32(sign: nat, e: nat, m: nat): (b: Bits32)
    requires sign < 2 && e < 0x100 && m < 0x80_0000
    ensures Sign32(b) == sign && Exponent32(b) == e && Mantissa32(b) == m
    ensures Magnitude32(b) == e * 0x80_0000 + m
  {
    (sign * 0x8000_0000 + e * 0x80_0000 + m) as Bits32
  }

  /** The exact magnitude of a finite binary32, in units of 2^-149. */
  function Exact32(b: Bits32): nat { Magnitude(23, Magnitude32(b)) }

  function Sign16(h: Bits16): nat { h as int / 0x8000 }
  function Magnitude16(h: Bits16): nat { h as int % 0x8000 }

  const HALF_INFINITY: nat := 0x7c00
  const BF16_INFINITY: nat := 0x7f80

  /**
   Magnitudes of binary16 in units of 2^-149: its smallest subnormal is 2^-24. The code of infinity
   gets the value 2^16 that the next binade would start with, so that rounding past the largest
   finite value 65504 is ordinary rounding to the code of infinity.
   */
  function HalfValues(): Table { Values(10, Pow2(125)) }

  /** Magnitudes of bfloat16 in units of 2^-149: its smallest subnormal is 2^-133. */
  function Bf16Values(): Table { Values(7, Pow2(16)) }

  /** `h` is the correctly rounded binary16 of `b`; NaN stays NaN and infinity stays infinity. */
  ghost predicate RoundsToHalf(b: Bits32, h: Bits16) {
    && Sign16(h) == Sign32(b)
    && (Finite32(b) ==> NearestEven(HalfValues(), HALF_INFINITY, Exact32(b), Magnitude16(h)))
    && (!Finite32(b) ==> if Mantissa32(b) == 0 then Magnitude16(h) == HALF_INFINITY
                         else Magnitude16(h) > HALF_INFINITY)
  }

  /** `b` is the binary32 with the same value as `h`; NaN stays NaN and infinity stays infinity. */
  ghost predicate WidensHalf(h: Bits16, b: Bits32) {
    && Sign32(b) == Sign16(h)
    && (Magnitude16(h) < HALF_INFINITY ==> Finite32(b) && Exact32(b) == HalfValues()(Magnitude16(h)))
    && (Magnitude16(h) == HALF_INFINITY ==> Magnitude32(b) == 0x7f80_0000)
    && (Magnitude16(h) > HALF_INFINITY ==> Magnitude32(b) > 0x7f80_0000)
  }

  /** The pieces of a finite binary32 that the conversions look at. */
  lemma Fields32(b: Bits32)
    ensures Magnitude32(b) == Exponent32(b) * 0x80_0000 + Mantissa32(b)
    ensures Exponent32(b) == 0 ==> Exact32(b) == Mantissa32(b)
    ensures Exponent32(b) > 0 ==> Exact32(b) == (0x80_0000 + Mantissa32(b)) * Pow2(Exponent32(b) - 1)
  {
    Pow2Fields();
    if Exponent32(b) > 0 {
      NormalMagnitude(23, Exponent32(b), Mantissa32(b));
    }
  }

  /** Patterns from that of infinity up are those with the largest exponent. */
  lemma NotFinite(b: Bits32)
    ensures Magnitude32(b) >= 0x7f80_0000 <==> !Finite32(b)
    ensures !Finite32(b) ==> Magnitude32(b) == 0x7f80_0000 + Mantissa32(b)
  {
  }

  lemma HalfValuesIncrease()
    ensures Increasing(HalfValues()) && HalfValues()(0) == 0
  {
    ValuesIncrease(10, Pow2(125));
  }

  method F32ToF16(b: Bits32) returns (h: Bits16)
    ensures RoundsToHalf(b, h)
  {
    hide HalfValues, Exact32, NearestEven, NearestQuotient, Pow2;
    var sign := Sign32(b) * 0x8000;
    var exp: int := Exponent32(b);
    var mant := Mantissa32(b);
    if exp == 0xff {
      h := (sign + 0x7c00 + if mant != 0 then 0x0200 else 0) as Bits16;
      return;
    }
    var e: int := exp - 127 + 15;
    if e >= 0x1f {
      OverflowsHalf(b);
      return PackHalf(b, 0x7c00);
    }
    if e <= 0 {
      if e < -10 {
        UnderflowsHalf(b);
        return PackHalf(b, 0);
      }
      var m16 := ShiftRightEven(mant + 0x80_0000, 14 - e);
      SubnormalHalf(b, m16);
      return PackHalf(b, m16);
    }
    var m16 := mant / 0x2000;
    var rem := mant % 0x2000;
    ghost var c := e * 0x400 + m16 + if rem > 0x1000 || (rem == 0x1000 && m16 % 2 == 1) then 1 else 0;
    if rem > 0x1000 || (rem == 0x1000 && m16 % 2 == 1) {
      m16 := m16 + 1;
      if m16 == 0x400 {
        m16 := 0;
        e := e + 1;
        if e >= 0x1f {
          NormalHalf(b, c);
          return PackHalf(b, 0x7c00);
        }
      }
    }
    NormalHalf(b, c);
    return PackHalf(b, e * 0x400 + m16);
  }

  /** The sign of `b` put in front of the rounded magnitude. */
  function PackHalf(b: Bits32, c: nat): (h: Bits16)
    requires Finite32(b) && NearestEven(HalfValues(), HALF_INFINITY, Exact32(b), c)
    ensures RoundsToHalf(b, h)
  {
    (Sign32(b) * 0x8000 + c) as Bits16
  }

  /** Past the largest exponent: at least 2^16, the value given to infinity. */
  lemma OverflowsHalf(b: Bits32)
    requires 143 <= Exponent32(b) < 0xff
    ensures NearestEven(HalfValues(), HALF_INFINITY, Exact32(b), HALF_INFINITY)
  {
    Fields32(b);
    Pow2Fields();
    HalfValuesIncrease();
    InfinityValue();
    LargeProduct(0x80_0000 + Mantissa32(b), 23, Exponent32(b) - 1, 165);
    SaturationIsNearest(HalfValues(), HALF_INFINITY, Exact32(b));
  }

  lemma InfinityValue()
    ensures HalfValues()(HALF_INFINITY) == Pow2(165)
  {
    hide Pow2;
    Pow2Fields();
    BinadeStart(10, 125, 31);
  }

  /** Below half of the smallest subnormal. */
  lemma UnderflowsHalf(b: Bits32)
    requires Exponent32(b) < 102
    ensures NearestEven(HalfValues(), HALF_INFINITY, Exact32(b), 0)
  {
    SmallExact(b, 124);
    NarrowToZero(10, 125, HALF_INFINITY, Exact32(b));
  }

  lemma SmallExact(b: Bits32, limit: nat)
    requires Exponent32(b) + 23 <= limit
    ensures Exact32(b) < Pow2(limit)
  {
    Fields32(b);
    Pow2Fields();
    if Exponent32(b) > 0 {
      SmallProduct(0x80_0000 + Mantissa32(b), 24, Exponent32(b) - 1, limit);
    } else {
      SmallProduct(Mantissa32(b), 23, 0, limit);
    }
  }

  lemma SubnormalHalf(b: Bits32, r: nat)
    requires 102 <= Exponent32(b) <= 112
    requires NearestQuotient(Mantissa32(b) + 0x80_0000, Pow2(126 - Exponent32(b)), r)
    ensures NearestEven(HalfValues(), HALF_INFINITY, Exact32(b), r)
  {
    Fields32(b);
    Pow2Fields();
    Pow2Mono(24, 10 + (126 - Exponent32(b)));
    NarrowToSubnormal(10, 125, HALF_INFINITY, 126 - Exponent32(b), Exponent32(b),
                      Mantissa32(b) + 0x80_0000, Exact32(b), r);
  }

  lemma NormalHalf(b: Bits32, r: nat)
    requires 113 <= Exponent32(b) < 143
    requires var c, rem := (Exponent32(b) - 112) * 0x400 + Mantissa32(b) / 0x2000, Mantissa32(b) % 0x2000;
             r == if rem > 0x1000 || (rem == 0x1000 && c % 2 == 1) then c + 1 else c
    ensures NearestEven(HalfValues(), HALF_INFINITY, Exact32(b), r)
  {
    Fields32(b);
    Pow2Fields();
    var e, q, rem := Exponent32(b) - 112, Mantissa32(b) / 0x2000, Mantissa32(b) % 0x2000;
    assert e * 0x400 + q == e * Pow2(10) + q;
    NarrowNormal(10, 125, HALF_INFINITY, 13, Exponent32(b), e, q, rem, e * 0x400 + q,
                 0x80_0000 + Mantissa32(b), Exact32(b), r);
  }

  method F16ToF32(h: Bits16) returns (b: Bits32)
    ensures WidensHalf(h, b)
  {
    var e := Magnitude16(h) / 0x400;
    var m := Magnitude16(h) % 0x400;
    if e == 0 {
      b := WidenSubnormal(h);
    } else if e == 0x1f {
      b := Pack32(Sign16(h), 0xff, m * 0x2000);
    } else {
      b := Pack32(Sign16(h), e - 15 + 127, m * 0x2000);
      WidenedNormal(h, b, e, m);
    }
  }

  method WidenSubnormal(h: Bits16) returns (b: Bits32)
    requires Magnitude16(h) < 0x400
    ensures WidensHalf(h, b)
  {
    var m := Magnitude16(h);
    if m == 0 {
      b := Pack32(Sign16(h), 0, 0);
      WidenedZero(h, b);
    } else {
      var m2, e2 := Normalize(m);
      b := Pack32(Sign16(h), e2, (m2 % 0x400) * 0x2000);
      WidenedSubnormal(h, b, m, m2, e2);
    }
  }

  /** Shifts a subnormal mantissa up to its implicit bit, lowering the exponent once per shift. */
  method Normalize(m: nat) returns (m2: nat, e2: nat)
    requires 0 < m < 0x400
    ensures 0x400 <= m2 < 0x800 && 103 <= e2 <= 113
    ensures m2 == m * Pow2(113 - e2)
  {
    m2 := m;
    e2 := 127 - 15 + 1;
    while m2 / 0x400 == 0
      invariant 0 < m2 < 0x800 && 103 <= e2 <= 113
      invariant m2 == m * Pow2(113 - e2)
      invariant Pow2(113 - e2) <= m2
      decreases 0x800 - m2
    {
      EnoughShifts(m2, 113 - e2);
      assert m * (2 * Pow2(113 - e2)) == 2 * (m * Pow2(113 - e2));
      m2 := m2 * 2;
      e2 := e2 - 1;
    }
  }

  lemma WidenedZero(h: Bits16, b: Bits32)
    requires Magnitude16(h) == 0 && Sign32(b) == Sign16(h) && Magnitude32(b) == 0 && Exponent32(b) == 0
    ensures WidensHalf(h, b)
  {
    hide Pow2;
  }

  /** Ten shifts always reach the implicit bit, so the exponent cannot run below 103. */
  lemma EnoughShifts(m2: nat, shifts: nat)
    requires m2 < 0x400 && Pow2(shifts) <= m2
    ensures shifts < 10
  {
    Pow2Fields();
    if shifts >= 10 {
      Pow2Mono(10, shifts);
    }
  }

  lemma WidenedNormal(h: Bits16, b: Bits32, e: nat, m: nat)
    requires 1 <= e <= 30 && m < 0x400 && Magnitude16(h) == e * 0x400 + m
    requires Sign32(b) == Sign16(h) && Exponent32(b) == e + 112 && Mantissa32(b) == m * 0x2000
    ensures WidensHalf(h, b)
  {
    Fields32(b);
    Pow2Fields();
    assert e * 0x400 + m == e * Pow2(10) + m;
    WidenNormal(10, 125, 13, e, e + 112, m);
  }

  lemma WidenedSubnormal(h: Bits16, b: Bits32, m: nat, m2: nat, e2: nat)
    requires Magnitude16(h) == m < 0x400
    requires 103 <= e2 <= 113 && 0x400 <= m2 < 0x800 && m2 == m * Pow2(113 - e2)
    requires Sign32(b) == Sign16(h) && Exponent32(b) == e2 && Mantissa32(b) == (m2 - 0x400) * 0x2000
    ensures WidensHalf(h, b)
  {
    Fields32(b);
    Pow2Fields();
    Pow2Add(13, e2 - 1);
    Pow2Add(113 - e2, 13 + (e2 - 1));
    MulAssoc(m2, Pow2(13), Pow2(e2 - 1));
    MulAssoc(m, Pow2(113 - e2), Pow2(12 + e2));
  }

  /** A NaN stays a NaN exactly if the carry neither misses its payload nor runs through the whole pattern. */
  method F32ToBf16(b: Bits32) returns (h: Bits16)
    ensures Finite32(b) ==> RoundsToBf16(b, h)
    ensures Magnitude32(b) == 0x7f80_0000 ==> Sign16(h) == Sign32(b) && Magnitude16(h) == BF16_INFINITY
    ensures Magnitude32(b) > 0x7f80_0000 ==>
              (Magnitude16(h) > BF16_INFINITY <==> 0x7f80_8000 < Magnitude32(b) < 0x7fff_8000)
    ensures 0x7f80_0000 < Magnitude32(b) <= 0x7f80_8000 ==> Sign16(h) == Sign32(b) && Magnitude16(h) == BF16_INFINITY
    ensures Magnitude32(b) >= 0x7fff_8000 ==> Sign16(h) != Sign32(b) && Magnitude16(h) == 0
  {
    var high := b as int / 0x1_0000;
    var rem := b as int % 0x1_0000;
    HighHalf(b, high, rem);
    if rem > 0x8000 || (rem == 0x8000 && high % 2 == 1) {
      high := (high + 1) % 0x1_0000;
    }
    h := high as Bits16;
    NotFinite(b);
    SplitHalf(b, h);
    if Finite32(b) {
      RoundedBf16(b, Magnitude16(h));
    }
  }

  /** The high half of a finite pattern leaves room for a carry below the sign bit. */
  lemma HighHalf(b: Bits32, high: nat, rem: nat)
    requires high == b as int / 0x1_0000 && rem == b as int % 0x1_0000
    ensures high == Sign32(b) * 0x8000 + Magnitude32(b) / 0x1_0000 && rem == Magnitude32(b) % 0x1_0000
    ensures Finite32(b) ==> Magnitude32(b) / 0x1_0000 < BF16_INFINITY
  {
  }

  /** What the carry does to the fields of the high half. */
  lemma SplitHalf(b: Bits32, h: Bits16)
    requires var c, rem := Magnitude32(b) / 0x1_0000, Magnitude32(b) % 0x1_0000;
             var carry := if rem > 0x8000 || (rem == 0x8000 && c % 2 == 1) then 1 else 0;
             h as int == (Sign32(b) * 0x8000 + c + carry) % 0x1_0000
    ensures Finite32(b) ==> Sign16(h) == Sign32(b)
    ensures Magnitude32(b) == 0x7f80_0000 ==> Sign16(h) == Sign32(b) && Magnitude16(h) == BF16_INFINITY
    ensures Magnitude32(b) > 0x7f80_0000 ==>
              (Magnitude16(h) > BF16_INFINITY <==> 0x7f80_8000 < Magnitude32(b) < 0x7fff_8000)
    ensures 0x7f80_0000 < Magnitude32(b) <= 0x7f80_8000 ==> Sign16(h) == Sign32(b) && Magnitude16(h) == BF16_INFINITY
    ensures Magnitude32(b) >= 0x7fff_8000 ==> Sign16(h) != Sign32(b) && Magnitude16(h) == 0
    ensures Finite32(b) ==>
              var c, rem := Magnitude32(b) / 0x1_0000, Magnitude32(b) % 0x1_0000;
              Magnitude16(h) == if rem > 0x8000 || (rem == 0x8000 && c % 2 == 1) then c + 1 else c
  {
    NotFinite(b);
  }

  /** `h` is the correctly rounded bfloat16 of the finite `b`. */
  ghost predicate RoundsToBf16(b: Bits32, h: Bits16) {
    && Sign16(h) == Sign32(b)
    && NearestEven(Bf16Values(), BF16_INFINITY, Exact32(b), Magnitude16(h))
  }

  lemma RoundedBf16(b: Bits32, r: nat)
    requires Finite32(b)
    requires var c, rem := Magnitude32(b) / 0x1_0000, Magnitude32(b) % 0x1_0000;
             r == if rem > 0x8000 || (rem == 0x8000 && c % 2 == 1) then c + 1 else c
    ensures NearestEven(Bf16Values(), BF16_INFINITY, Exact32(b), r)
  {
    Fields32(b);
    Pow2Fields();
    var e, q, rem := Exponent32(b), Mantissa32(b) / 0x1_0000, Mantissa32(b) % 0x1_0000;
    if e == 0 {
      NarrowToSubnormal(7, 16, BF16_INFINITY, 16, 1, Mantissa32(b), Exact32(b), r);
    } else {
      assert e * 0x80 + q == e * Pow2(7) + q;
      NarrowNormal(7, 16, BF16_INFINITY, 16, e, e, q, rem, e * 0x80 + q, 0x80_0000 + Mantissa32(b), Exact32(b), r);
    }
  }

  method Bf16ToF32(h: Bits16) returns (b: Bits32)
    ensures Sign32(b) == Sign16(h)
    ensures Magnitude16(h) < BF16_INFINITY ==> Finite32(b) && Exact32(b) == Bf16Values()(Magnitude16(h))
    ensures Magnitude16(h) == BF16_INFINITY ==> Magnitude32(b) == 0x7f80_0000
    ensures Magnitude16(h) > BF16_INFINITY ==> Magnitude32(b) > 0x7f80_0000
  {
    b := (h as int * 0x1_0000) as Bits32;
    SplitWidened(h, b);
    hide Exact32, Bf16Values, Sign32, Magnitude32, Mantissa32, Exponent32, Sign16, Magnitude16;
    NotFinite(b);
    WidenedBf16(b, Magnitude16(h) / 0x80, Magnitude16(h) % 0x80);
  }

  lemma SplitWidened(h: Bits16, b: Bits32)
    requires b as int == h as int * 0x1_0000
    ensures Sign32(b) == Sign16(h) && Magnitude32(b) == Magnitude16(h) * 0x1_0000
    ensures Exponent32(b) == Magnitude16(h) / 0x80 && Mantissa32(b) == (Magnitude16(h) % 0x80) * 0x1_0000
    ensures Magnitude16(h) == (Magnitude16(h) / 0x80) * 0x80 + Magnitude16(h) % 0x80
  {
  }

  lemma WidenedBf16(b: Bits32, e: nat, m: nat)
    requires m < 0x80 && Exponent32(b) == e && Mantissa32(b) == m * 0x1_0000
    ensures Exact32(b) == Bf16Values()(e * 0x80 + m)
  {
    Fields32(b);
    Pow2Fields();
    if e > 0 {
      assert e * 0x80 + m == e * Pow2(7) + m;
      WidenNormal(7, 16, 16, e, e, m);
    }
  }

  /** Signed values, comparable across formats; infinity counts as 2^16. */
  function Signed32(b: Bits32): int { Signed(Sign32(b) == 1, Exact32(b)) }
  function SignedHalf(h: Bits16): int { Signed(Sign16(h) == 1, HalfValues()(Magnitude16(h))) }

  /** A half that survives the trip through binary32 comes back unchanged; a NaN comes back as a NaN. */
  lemma HalfRoundTrip(h: Bits16, b: Bits32, back: Bits16)
    requires WidensHalf(h, b) && RoundsToHalf(b, back)
    ensures Magnitude16(h) <= HALF_INFINITY ==> back == h
    ensures Magnitude16(h) > HALF_INFINITY ==> Magnitude16(back) > HALF_INFINITY
  {
    hide Increasing, NearestEven, HalfValues, Exact32, Finite32, Magnitude32, Mantissa32, Magnitude16, Sign16;
    NotFinite(b);
    SameBits16(h, back);
    if Magnitude16(h) < HALF_INFINITY {
      HalfValuesIncrease();
      ExactValuesAreKept(HalfValues(), HALF_INFINITY, Exact32(b), Magnitude16(h), Magnitude16(back));
    }
  }

  lemma SameBits16(p: Bits16, q: Bits16)
    ensures Sign16(p) == Sign16(q) && Magnitude16(p) == Magnitude16(q) ==> p == q
  {
  }

  /**
   The error of narrowing a value up to 65504: at most a 2^-11th part of it or 2^-25, half of the smallest subnormal.
   */
  lemma HalfErrorBound(b: Bits32, h: Bits16)
    requires Finite32(b) && RoundsToHalf(b, h) && Exact32(b) <= 65504 * Pow2(149)
    ensures var error := Dist(Exact32(b), HalfValues()(Magnitude16(h)));
            2048 * error <= Exact32(b) || 2 * error <= Pow2(125)
  {
    hide Pow2;
    Pow2Fields();
    HalfValuesIncrease();
    LargestHalf();
    InfinityIsNextBinade();
    TopCodeThreshold(HalfValues(), HALF_INFINITY, Exact32(b), Magnitude16(h));
    RelativeErrorBound(10, HALF_INFINITY - 1, Pow2(125), Exact32(b), Magnitude16(h));
  }

  /** Narrowing is monotone over every pair of finite inputs, both signs included. */
  lemma NarrowingIsMonotone(b1: Bits32, b2: Bits32, h1: Bits16, h2: Bits16)
    requires Finite32(b1) && Finite32(b2) && RoundsToHalf(b1, h1) && RoundsToHalf(b2, h2)
    requires Signed32(b1) <= Signed32(b2)
    ensures SignedHalf(h1) <= SignedHalf(h2)
  {
    HalfValuesIncrease();
    SignedRoundingIsMonotone(HalfValues(), HALF_INFINITY,
                             Sign32(b1) == 1, Exact32(b1), Magnitude16(h1),
                             Sign32(b2) == 1, Exact32(b2), Magnitude16(h2));
  }

  /** There is only one correct rounding of a finite input. */
  lemma NarrowingIsUnique(b: Bits32, h1: Bits16, h2: Bits16)
    requires Finite32(b) && RoundsToHalf(b, h1) && RoundsToHalf(b, h2)
    ensures h1 == h2
  {
    HalfValuesIncrease();
    RoundingIsMonotone(HalfValues(), HALF_INFINITY, Exact32(b), Exact32(b), Magnitude16(h1), Magnitude16(h2));
    RoundingIsMonotone(HalfValues(), HALF_INFINITY, Exact32(b), Exact32(b), Magnitude16(h2), Magnitude16(h1));
  }

  /**
   The overflow threshold: a finite input becomes infinity exactly from 65520 up, halfway between the
   largest finite half 65504 and 2^16; below it the result is the nearest finite half.
   */
  lemma OverflowThreshold(b: Bits32, h: Bits16)
    requires Finite32(b) && RoundsToHalf(b, h)
    ensures Magnitude16(h) == HALF_INFINITY <==> Exact32(b) >= 65520 * Pow2(149)
    ensures Magnitude16(h) != HALF_INFINITY ==>
              NearestEven(HalfValues(), HALF_INFINITY - 1, Exact32(b), Magnitude16(h))
  {
    HalfValuesIncrease();
    LargestHalf();
    InfinityIsNextBinade();
    TopCodeThreshold(HalfValues(), HALF_INFINITY, Exact32(b), Magnitude16(h));
  }

  lemma LargestHalf()
    ensures HalfValues()(HALF_INFINITY - 1) == 65504 * Pow2(149)
  {
    hide Pow2;
    Pow2Fields();
    WidenNormal(10, 125, 5, 30, 150, 0x3ff);
  }

  lemma InfinityIsNextBinade()
    ensures HalfValues()(HALF_INFINITY) == 65536 * Pow2(149)
  {
    InfinityValue();
    Pow2Fields();
    Pow2Add(16, 149);
  }
}
