/**
 E4M3 as a codec of real numbers (fp8.rs): encoding is nearest rounding with ties to even and saturation, of every
 real and not only of the binary32 values, on which it is `f32_to_e4m3`. The error bound that the quantized tensor
 needs is proved of this codec.
 */
module E4m3Codec {
  import opened Arithmetic
  import opened Rounding
  import opened MiniFloat
  import opened Fp16
  import opened Fp8
  import opened Fp8Tensor

  // ----- nearest rounding of reals

  function RealDist(x: real, n: nat): real {
    if x <= n as real then n as real - x else x - n as real
  }

  /** As `NearestEven`, for a real value. */
  ghost predicate RealNearest(v: Table, top: nat, x: real, c: nat) {
    c <= top && forall d: nat :: d <= top ==> Beats(v, x, c, d)
  }

  predicate Beats(v: Table, x: real, c: nat, d: nat) {
    d != c ==> RealDist(x, v(c)) < RealDist(x, v(d)) || (RealDist(x, v(c)) == RealDist(x, v(d)) && c % 2 == 0)
  }

  /** The nearest code, found from the top: the first one whose lower midpoint is not above `x`. */
  function NearestCode(v: Table, top: nat, x: real): (c: nat)
    ensures c <= top
  {
    if top == 0 then 0 else
      var mid := v(top - 1) as real + v(top) as real;
      if 2.0 * x > mid || (2.0 * x == mid && top % 2 == 0) then top else NearestCode(v, top - 1, x)
  }

  /** Which of two values is nearer is decided by their midpoint. */
  lemma Midpoint(x: real, a: nat, b: nat)
    requires a < b
    ensures RealDist(x, b) < RealDist(x, a) <==> 2.0 * x > a as real + b as real
    ensures RealDist(x, b) == RealDist(x, a) <==> 2.0 * x == a as real + b as real
  {
  }

  lemma {:induction false} NearestCodeIsNearest(v: Table, top: nat, x: real)
    requires Increasing(v)
    ensures RealNearest(v, top, x, NearestCode(v, top, x))
  {
    var c := NearestCode(v, top, x);
    if top > 0 {
      Midpoint(x, v(top - 1), v(top));
      if c < top {
        NearestCodeIsNearest(v, top - 1, x);
        assert Beats(v, x, c, top - 1);
      }
      forall d: nat | d <= top
        ensures Beats(v, x, c, d)
      {
        if c == top && d < top {
          assert v(d) <= v(top - 1);
          Midpoint(x, v(d), v(top));
        }
      }
    }
  }

  /** Two nearest codes would both be even, and the one between them nearer. */
  lemma RealNearestIsUnique(v: Table, top: nat, x: real, c: nat, d: nat)
    requires Increasing(v) && RealNearest(v, top, x, c) && RealNearest(v, top, x, d)
    ensures c == d
  {
    var low, high := if c < d then c else d, if c < d then d else c;
    assert Beats(v, x, c, d) && Beats(v, x, d, c);
    if low + 1 < high {
      assert v(low) < v(low + 1) < v(high);
      assert Beats(v, x, c, low + 1);
      Midpoint(x, v(low), v(low + 1));
      Midpoint(x, v(low), v(high));
    }
  }

  /** On whole numbers of units the real notion is the exact one. */
  lemma NearestOfWhole(v: Table, top: nat, n: nat, c: nat)
    requires Increasing(v) && NearestEven(v, top, n, c)
    ensures c == NearestCode(v, top, n as real)
  {
    var x := n as real;
    forall d: nat | d <= top
      ensures Beats(v, x, c, d)
    {
      WholeDist(n, v(c));
      WholeDist(n, v(d));
    }
    NearestCodeIsNearest(v, top, x);
    RealNearestIsUnique(v, top, x, c, NearestCode(v, top, x));
  }

  lemma WholeDist(n: nat, m: nat)
    ensures RealDist(n as real, m) == Dist(n, m) as real
  {
  }

  /** Nearest rounding of a real inside the range is off by at most half of the gap that it lies in. */
  lemma RealHalfGap(v: Table, top: nat, x: real, r: nat) returns (c: nat)
    requires Increasing(v) && v(0) == 0 && 0.0 <= x <= v(top) as real && RealNearest(v, top, x, r)
    ensures v(c) as real <= x && 2.0 * RealDist(x, v(r)) <= v(c + 1) as real - v(c) as real
  {
    c := FloorCode(v, top, x.Floor);
    assert v(c) < v(c + 1);
    assert Beats(v, x, r, c);
    if c < top {
      assert Beats(v, x, r, c + 1);
    }
  }

  // ----- the codec

  /** How many units of 2^-149 make one. */
  function Unit(): (u: real)
    ensures u > 0.0
  {
    Pow2(149) as real
  }

  function InUnits(y: real): (x: real)
    ensures x >= 0.0
  {
    Abs(y) * Unit()
  }

  /** The nearest magnitude, saturating at 448. */
  function MagnitudeCode(y: real): (c: nat)
    ensures c <= E4M3_LARGEST
  {
    NearestCode(E4m3Values(), E4M3_LARGEST, InUnits(y))
  }

  function Encode(y: real): (q: Code)
    ensures q < 0x100
  {
    (if y < 0.0 then 0x80 else 0) + MagnitudeCode(y)
  }

  /** The value of a code that is not NaN; encoding never gives NaN. */
  function Decode(q: Code): real {
    var magnitude := E4m3Values()(q % 0x80) as real / Unit();
    if (q / 0x80) % 2 == 1 then -magnitude else magnitude
  }

  function E4m3(): Codec {
    Codec(Encode, Decode)
  }

  /** The value of a finite binary32. */
  function Real32(b: Bits32): real {
    Signed32(b) as real / Unit()
  }

  lemma UnitsOf32(b: Bits32)
    ensures InUnits(Real32(b)) == Exact32(b) as real
    ensures Real32(b) < 0.0 <==> Sign32(b) == 1 && Exact32(b) > 0
  {
    hide Exact32, Pow2;
    var n, u := Exact32(b), Unit();
    assert Abs(Real32(b)) == n as real / u;
  }

  /** On binary32 values the encoder is `f32_to_e4m3`; only negative zero, which is no real number, loses its sign. */
  lemma EncodeIsF32ToE4m3(b: Bits32, q: Bits8)
    requires Finite32(b) && RoundsToE4m3(b, q)
    ensures Sign32(b) == 0 || Exact32(b) > 0 ==> q as nat == Encode(Real32(b))
    ensures Decode(q as nat) == Decode(Encode(Real32(b)))
  {
    hide NearestCode, NearestEven, Increasing, Exact32, E4m3Values, InUnits, Real32, Unit, Finite32, Sign32;
    E4m3ValuesIncrease();
    UnitsOf32(b);
    NearestOfWhole(E4m3Values(), E4M3_LARGEST, Exact32(b), Magnitude8(q));
    SplitByte(q);
    if Exact32(b) == 0 {
      ExactValuesAreKept(E4m3Values(), E4M3_LARGEST, 0, 0, Magnitude8(q));
    }
  }

  lemma SplitByte(q: Bits8)
    ensures q as nat == Sign8(q) * 0x80 + Magnitude8(q) && Sign8(q) < 2 && Magnitude8(q) < 0x80
  {
  }

  /** The decoder is `e4m3_to_f32`. */
  lemma DecodeIsE4m3ToF32(q: Bits8, b: Bits32)
    requires WidensE4m3(q, b) && Magnitude8(q) != E4M3_NAN
    ensures Decode(q as nat) == Real32(b)
  {
    hide Exact32, E4m3Values, Pow2;
    SplitByte(q);
  }

  // ----- the error of the codec

  lemma DecodedIsNear(y: real)
    ensures Abs(Decode(Encode(y)) - y) ==
            RealDist(InUnits(y), E4m3Values()(MagnitudeCode(y))) / Unit()
  {
    hide MagnitudeCode, Unit, Encode, RealDist, E4m3Values, Abs;
    var c, u, q := MagnitudeCode(y), Unit(), Encode(y);
    var n := E4m3Values()(c);
    EncodedFields(y);
    assert E4m3Values()(q % 0x80) == n;
    assert Decode(q) == if y < 0.0 then -(n as real / u) else n as real / u;
    assert InUnits(y) == Abs(y) * u;
    MagnitudeError(y, n, u);
  }

  lemma EncodedFields(y: real)
    ensures Encode(y) % 0x80 == MagnitudeCode(y) != E4M3_NAN
    ensures (Encode(y) / 0x80) % 2 == if y < 0.0 then 1 else 0
  {
    hide MagnitudeCode;
  }

  lemma MagnitudeError(y: real, n: nat, u: real)
    requires u > 0.0
    ensures var d := if y < 0.0 then -(n as real / u) else n as real / u;
            Abs(d - y) == RealDist(Abs(y) * u, n) / u
  {
    var x := Abs(y) * u;
    assert x / u == Abs(y);
    assert (x - n as real) / u == x / u - n as real / u;
    assert (n as real - x) / u == n as real / u - x / u;
  }

  /** The rounding error of E4M3 over all reals up to 448. */
  lemma E4m3IsOk()
    ensures CodecOk(E4m3())
  {
    forall y: real
      ensures RoundsWell(E4m3(), y)
    {
      if Abs(y) <= E4M3_MAX {
        RoundsWellAt(y);
      }
    }
  }

  lemma RoundsWellAt(y: real)
    requires Abs(y) <= E4M3_MAX
    ensures Abs(Decode(Encode(y)) - y) <= Larger(Abs(y) / 16.0, 1.0 / 1024.0)
  {
    var x := InUnits(y);
    DecodedIsNear(y);
    InRange(y);
    var c := MagnitudeCode(y);
    UnitError(x, c);
    FromUnits(RealDist(x, E4m3Values()(c)), y);
  }

  lemma InRange(y: real)
    requires Abs(y) <= E4M3_MAX
    ensures InUnits(y) <= E4m3Values()(E4M3_LARGEST) as real
  {
    hide E4m3Values, Pow2;
    LargestE4m3();
    if Abs(y) < E4M3_MAX {
      RealStrictlyMono(Abs(y), E4M3_MAX, Unit());
    }
  }

  /** The gap above a code: the smallest subnormal, or at most an eighth of the value. */
  lemma GapAbove(c: nat)
    ensures c < 8 ==> E4m3Values()(c + 1) == E4m3Values()(c) + Pow2(140)
    ensures c >= 8 ==> 8 * (E4m3Values()(c + 1) - E4m3Values()(c)) <= E4m3Values()(c)
  {
    hide Pow2;
    Pow2Fields();
    NextValue(3, Pow2(140), c);
    if c >= 8 {
      NormalUlp(3, Pow2(140), c);
    }
  }

  /** The bound in units: half the smallest subnormal, or a sixteenth of the value. */
  lemma UnitError(x: real, r: nat)
    requires 0.0 <= x <= E4m3Values()(E4M3_LARGEST) as real && r == NearestCode(E4m3Values(), E4M3_LARGEST, x)
    ensures var error := RealDist(x, E4m3Values()(r));
            2.0 * error <= Pow2(140) as real || 16.0 * error <= x
  {
    hide NearestCode, Pow2, Increasing, E4m3Values, RealDist;
    var v := E4m3Values();
    E4m3ValuesIncrease();
    NearestCodeIsNearest(v, E4M3_LARGEST, x);
    var c := RealHalfGap(v, E4M3_LARGEST, x, r);
    GapAbove(c);
  }

  lemma FromUnits(error: real, y: real)
    requires error >= 0.0 && (2.0 * error <= Pow2(140) as real || 16.0 * error <= InUnits(y))
    ensures error / Unit() <= Larger(Abs(y) / 16.0, 1.0 / 1024.0)
  {
    hide Pow2;
    Pow2Fields();
    Pow2Add(9, 140);
    var u := Unit();
    assert u == 512.0 * Pow2(140) as real;
    if 2.0 * error <= Pow2(140) as real {
      AtMostAfterDividing(error, 1.0 / 1024.0, u);
    } else {
      assert (Abs(y) / 16.0) * u == InUnits(y) / 16.0;
      AtMostAfterDividing(error, Abs(y) / 16.0, u);
    }
  }

  lemma AtMostAfterDividing(error: real, bound: real, u: real)
    requires u > 0.0 && error <= bound * u
    ensures error / u <= bound
  {
    var e := error / u;
    assert e * u == error;
    if e > bound {
      RealStrictlyMono(bound, e, u);
    }
  }

  // ----- the tensor

  /** The whole round trip: every element is off by at most a sixteenth of itself or 2^-10 of its block's scale. */
  lemma RoundTripError(w: seq<real>, block: nat, i: nat)
    requires block > 0 && i < |w|
    ensures TensorOk(QuantizedOf(E4m3(), w, block))
    ensures Near(ValueAt(E4m3(), QuantizedOf(E4m3(), w, block), i), w[i], BlockScaleAt(w, block, i))
  {
    hide Near, ValueAt, QuantizedOf, E4m3, Scale, EncodeAt;
    E4m3IsOk();
    RoundTripIs(E4m3(), w, block, i);
    ElementError(E4m3(), w[i], BlockScaleAt(w, block, i));
  }

  /** The largest elements of a block are mapped to 448 and come back exactly. */
  lemma LargestIsExact(w: seq<real>, block: nat, i: nat)
    requires block > 0 && i < |w| && Abs(w[i]) == BlockScaleAt(w, block, i) * E4M3_MAX
    ensures TensorOk(QuantizedOf(E4m3(), w, block))
    ensures ValueAt(E4m3(), QuantizedOf(E4m3(), w, block), i) == w[i]
  {
    hide ValueAt, QuantizedOf, Encode, Decode, Abs, BlockScaleAt;
    RoundTripIs(E4m3(), w, block, i);
    var x, s := w[i], BlockScaleAt(w, block, i);
    if s > 0.0 {
      LargestQuotient(x, s);
      LargestCode(x / s);
    } else {
      assert Abs(x) == 0.0;
      ZeroIsZero(x, Decode(0));
    }
  }

  lemma LargestQuotient(x: real, s: real)
    requires s > 0.0 && Abs(x) == s * E4M3_MAX
    ensures Abs(x / s) == E4M3_MAX && Scale(x / s, s) == x
  {
    var y := x / s;
    assert y * s == x;
    if x < 0.0 {
      assert (-E4M3_MAX) * s == x;
    } else {
      assert E4M3_MAX * s == x;
    }
  }

  lemma ZeroIsZero(x: real, v: real)
    requires Abs(x) == 0.0
    ensures Scale(v, 0.0) == x
  {
  }

  lemma LargestCode(y: real)
    requires Abs(y) == E4M3_MAX
    ensures Decode(Encode(y)) == y
  {
    hide E4m3Values, Unit, NearestCode, Encode;
    LargestInUnits();
    EncodedFields(y);
    TopIsNearest(E4m3Values(), E4M3_LARGEST, InUnits(y));
    LargestValue(E4m3Values()(E4M3_LARGEST), Unit());
  }

  lemma LargestInUnits()
    ensures E4m3Values()(E4M3_LARGEST) as real == 448.0 * Unit()
    ensures E4m3Values()(E4M3_LARGEST - 1) as real == 416.0 * Unit()
  {
    hide E4m3Values, Pow2;
    LargestE4m3();
    SecondLargestE4m3();
  }

  lemma LargestValue(n: nat, u: real)
    requires u > 0.0 && n as real == 448.0 * u
    ensures n as real / u == 448.0
  {
  }

  lemma TopIsNearest(v: Table, top: nat, x: real)
    requires top > 0 && 2.0 * x > v(top - 1) as real + v(top) as real
    ensures NearestCode(v, top, x) == top
  {
  }

  // ----- quantizing once more

  /** A value of the format is encoded as itself. */
  lemma ValuesAreKept(q: Code)
    requires q % 0x80 != E4M3_NAN
    ensures Decode(Encode(Decode(q))) == Decode(q)
  {
    hide E4m3Values, Unit, NearestCode, Encode, InUnits, Increasing, NearestEven;
    var c, y := q % 0x80, Decode(q);
    var n := E4m3Values()(c);
    E4m3ValuesIncrease();
    DecodedInUnits(n, y);
    ExactIsNearest(E4m3Values(), E4M3_LARGEST, c);
    NearestOfWhole(E4m3Values(), E4M3_LARGEST, n, c);
    EncodedFields(y);
    SignOfValue(n, y);
  }

  lemma ExactIsNearest(v: Table, top: nat, c: nat)
    requires Increasing(v) && c <= top
    ensures NearestEven(v, top, v(c), c)
  {
  }

  lemma DecodedInUnits(n: nat, y: real)
    requires y == n as real / Unit() || y == -(n as real / Unit())
    ensures InUnits(y) == n as real
  {
    hide Unit;
    assert Abs(y) == n as real / Unit();
  }

  lemma SignOfValue(n: nat, y: real)
    requires y == n as real / Unit() || y == -(n as real / Unit())
    ensures y < 0.0 ==> y == -(n as real / Unit())
    ensures y >= 0.0 ==> y == n as real / Unit()
  {
    hide Unit;
    assert n as real / Unit() >= 0.0;
  }

  /** What an element becomes under a scale. */
  function Back(x: real, s: real): real {
    Scale(Decode(EncodeAt(E4m3(), x, s)), s)
  }

  lemma BackIsWithin(x: real, s: real)
    requires s >= 0.0
    ensures Abs(Back(x, s)) <= s * E4M3_MAX
  {
    var q := EncodeAt(E4m3(), x, s);
    hide Decode, Encode, MagnitudeCode;
    if s > 0.0 {
      EncodedFields(x / s);
    }
    DecodeIsBounded(q);
    ScaledIsBounded(Decode(q), s);
  }

  lemma DecodeIsBounded(q: Code)
    requires q % 0x80 != E4M3_NAN
    ensures Abs(Decode(q)) <= E4M3_MAX
  {
    hide E4m3Values, Unit;
    MagnitudeIsBounded(q % 0x80);
  }

  lemma MagnitudeIsBounded(c: nat)
    requires c < E4M3_NAN
    ensures 0.0 <= E4m3Values()(c) as real / Unit() <= E4M3_MAX
  {
    E4m3ValuesIncrease();
    hide E4m3Values, Unit, Increasing;
    AtMost(E4m3Values(), c, E4M3_LARGEST);
    LargestInUnits();
    QuotientIsBounded(E4m3Values()(c), E4m3Values()(E4M3_LARGEST), Unit());
  }

  lemma QuotientIsBounded(n: nat, top: nat, u: real)
    requires n <= top && u > 0.0 && top as real == 448.0 * u
    ensures 0.0 <= n as real / u <= E4M3_MAX
  {
    AtMostAfterDividing(n as real, E4M3_MAX, u);
  }

  lemma ScaledIsBounded(v: real, s: real)
    requires s >= 0.0 && Abs(v) <= E4M3_MAX
    ensures Abs(Scale(v, s)) <= s * E4M3_MAX
  {
    assert -E4M3_MAX <= v <= E4M3_MAX;
    assert (E4M3_MAX - v) * s >= 0.0 && (E4M3_MAX + v) * s >= 0.0;
  }

  /** Once quantized, an element comes back as it is under the same scale. */
  lemma BackTwice(x: real, s: real)
    requires s >= 0.0
    ensures Back(Back(x, s), s) == Back(x, s)
  {
    hide Decode, Encode, MagnitudeCode;
    if s > 0.0 {
      EncodedFields(x / s);
      ValuesAreKept(Encode(x / s));
      Unscaled(Decode(Encode(x / s)), s);
    }
  }

  lemma Unscaled(v: real, s: real)
    requires s > 0.0
    ensures Scale(v, s) / s == v
  {
  }

  /** The largest element of a block comes back exactly. */
  lemma BackOfLargest(x: real, s: real)
    requires s >= 0.0 && Abs(x) == s * E4M3_MAX
    ensures Back(x, s) == x
  {
    hide Encode, Decode, Abs;
    if s > 0.0 {
      LargestQuotient(x, s);
      LargestCode(x / s);
    } else {
      ZeroIsZero(x, Decode(0));
    }
  }

  /** So a block keeps its scale. */
  lemma BlockKeepsScale(w: seq<real>, v: seq<real>)
    requires w != [] && |v| == |w| && forall i :: 0 <= i < |w| ==> v[i] == Back(w[i], ScaleOf(w))
    ensures ScaleOf(v) == ScaleOf(w)
  {
    hide Back;
    var m, s := MaxAbs(w), ScaleOf(w);
    var j := LargestAt(w);
    assert s * E4M3_MAX == m;
    MaxAbsBounds(w, j);
    BackOfLargest(w[j], s);
    forall i | 0 <= i < |v|
      ensures Abs(v[i]) <= m
    {
      BackIsWithin(w[i], s);
    }
    var k := LargestAt(v);
    MaxAbsBounds(v, j);
  }

  lemma {:induction false} BlocksKeepScales(w: seq<real>, v: seq<real>, block: nat, i: nat)
    requires block > 0 && i < |w| == |v|
    requires forall k: nat :: k < |w| ==> v[k] == Back(w[k], BlockScaleAt(w, block, k))
    ensures BlockScaleAt(v, block, i) == BlockScaleAt(w, block, i)
    decreases |w|
  {
    hide Back, ScaleOf;
    var k := Min(block, |w|);
    if i < k {
      BlockKeepsScale(w[..k], v[..k]);
    } else {
      forall j: nat | j < |w| - k
        ensures v[k..][j] == Back(w[k..][j], BlockScaleAt(w[k..], block, j))
      {
        assert v[k + j] == Back(w[k + j], BlockScaleAt(w, block, k + j));
      }
      BlocksKeepScales(w[k..], v[k..], block, i - k);
    }
  }

  /** Quantizing what a quantized tensor dequantizes to, in the same blocks, changes no value. */
  lemma RequantizingKeepsValues(w: seq<real>, block: nat)
    requires block > 0
    ensures TensorOk(QuantizedOf(E4m3(), w, block))
    ensures var v := DequantizedOf(E4m3(), QuantizedOf(E4m3(), w, block));
            TensorOk(QuantizedOf(E4m3(), v, block)) && DequantizedOf(E4m3(), QuantizedOf(E4m3(), v, block)) == v
  {
    hide ValueAt, BlockScaleAt, BlockCodes, BlockScales, E4m3, EncodeAt, Scale, DivCeil;
    QuantizedIsOk(E4m3(), w, block);
    var v := DequantizedOf(E4m3(), QuantizedOf(E4m3(), w, block));
    QuantizedIsOk(E4m3(), v, block);
    ElementsAreBack(w, block);
    ElementsAreBack(v, block);
    hide Back;
    forall i: nat | i < |v|
      ensures DequantizedOf(E4m3(), QuantizedOf(E4m3(), v, block))[i] == v[i]
    {
      RoundTripIs(E4m3(), w, block, i);
      BlocksKeepScales(w, v, block, i);
      BackTwice(w[i], BlockScaleAt(w, block, i));
    }
  }

  lemma ElementsAreBack(w: seq<real>, block: nat)
    requires block > 0
    ensures TensorOk(QuantizedOf(E4m3(), w, block))
    ensures forall i: nat :: i < |w| ==>
              DequantizedOf(E4m3(), QuantizedOf(E4m3(), w, block))[i] == Back(w[i], BlockScaleAt(w, block, i))
  {
    QuantizedIsOk(E4m3(), w, block);
    hide ValueAt, QuantizedOf, BlockScaleAt, EncodeAt, Scale, Encode, Decode, TensorOk;
    assert |DequantizedOf(E4m3(), QuantizedOf(E4m3(), w, block))| == |w| by {
      SameCount(E4m3(), w, block);
    }
    forall i: nat | i < |w|
      ensures DequantizedOf(E4m3(), QuantizedOf(E4m3(), w, block))[i] == Back(w[i], BlockScaleAt(w, block, i))
    {
      RoundTripIs(E4m3(), w, block, i);
    }
  }

  lemma SameCount(c: Codec, w: seq<real>, block: nat)
    requires block > 0
    ensures QuantizedOf(c, w, block).n == |w|
  {
  }
}
