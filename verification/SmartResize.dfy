/**
 Snapping an image to the patch grid within a pixel budget (image_processor.rs, `smart_resize` and the budget of
 `preprocess_image_capped`), in exact arithmetic; the square root is a parameter.
 */
module SmartResize {
  import opened Arithmetic

  const USIZE_MAX: nat := 0xffff_ffff_ffff_ffff

  datatype Size = Size(h: nat, w: nat)

  datatype Result = Ok(size: Size) | Err

  ghost predicate IsSqrt(sqrt: real -> real) {
    forall x: real :: x > 0.0 ==> sqrt(x) > 0.0 && sqrt(x) * sqrt(x) == x
  }

  // ----- what the two branches compute, without roots

  /** `k` is the largest number of units of `f` on side `a` that shrinking to `max` pixels leaves. */
  predicate ShrinkSide(a: nat, b: nat, f: nat, max: nat, k: nat) {
    k * k * (f * f * b) <= a * max < (k + 1) * (k + 1) * (f * f * b)
  }

  /** `k` is the smallest number of units of `f` on side `a` that enlarging to `min` pixels needs. */
  predicate EnlargeSide(a: nat, b: nat, f: nat, min: nat, k: nat) {
    k > 0 && (k - 1) * (k - 1) * (f * f * b) < a * min <= k * k * (f * f * b)
  }

  /** Nearest multiple, ties to the even one: the number of units. */
  function SnapUnits(a: nat, f: nat): nat
    requires f > 0
  {
    var q, r := a / f, a % f;
    if 2 * r > f || (2 * r == f && q % 2 == 1) then q + 1 else q
  }

  /** Rounding to a multiple of the factor is rounding to the nearest one, ties to the even one. */
  lemma SnapIsNearest(a: nat, f: nat)
    requires f > 0
    ensures NearestQuotient(a, f, SnapUnits(a, f))
  {
    StepIsNearest(a, f, Quotient(a, f), Remainder(a, f), SnapUnits(a, f));
  }

  // ----- from roots to whole numbers

  /** Shrinking one side: the floor of the scaled side. */
  method ShrinkUnits(a: nat, b: nat, f: nat, max: nat, beta: real) returns (k: nat)
    requires a > 0 && b > 0 && f > 0 && max > 0
    requires beta > 0.0 && beta * beta == (a * b) as real / max as real
    ensures ShrinkSide(a, b, f, max, k)
  {
    var x := a as real / beta / f as real;
    k := x.Floor;
    ScaledFloor(a as real, beta * f as real, x, k as real);
    ShrinkBelow(a, b, f, max, beta, k);
    ShrinkAbove(a, b, f, max, beta, k + 1);
  }

  lemma ScaledFloor(a: real, s: real, x: real, k: real)
    requires s > 0.0 && x * s == a && k <= x < k + 1.0
    ensures k * s <= a < (k + 1.0) * s
  {
    var next := k + 1.0;
    RealStrictlyMono(x, next, s);
    assert a < next * s;
  }

  lemma ShrinkBelow(a: nat, b: nat, f: nat, max: nat, beta: real, k: nat)
    requires a > 0 && max > 0 && beta > 0.0 && f > 0 && beta * beta == (a * b) as real / max as real
    requires k as real * (beta * f as real) <= a as real
    ensures k * k * (f * f * b) <= a * max
  {
  }

  lemma ShrinkAbove(a: nat, b: nat, f: nat, max: nat, beta: real, k: nat)
    requires a > 0 && max > 0 && beta > 0.0 && f > 0 && beta * beta == (a * b) as real / max as real
    requires k as real * (beta * f as real) > a as real
    ensures k * k * (f * f * b) > a * max
  {
  }

  /** Enlarging one side: the ceiling of the scaled side. */
  method EnlargeUnits(a: nat, b: nat, f: nat, min: nat, beta: real) returns (k: nat)
    requires a > 0 && b > 0 && f > 0 && min > 0
    requires beta > 0.0 && beta * beta == min as real / (a * b) as real
    ensures EnlargeSide(a, b, f, min, k)
  {
    var x := a as real * beta / f as real;
    k := -(-x).Floor;
    UnscaledCeiling(a as real * beta, f as real, x, k as real);
    EnlargeAbove(a, b, f, min, beta, k);
    EnlargeBelow(a, b, f, min, beta, k - 1);
  }

  lemma UnscaledCeiling(s: real, f: real, x: real, k: real)
    requires f > 0.0 && x * f == s && k - 1.0 < x <= k
    ensures (k - 1.0) * f < s <= k * f
  {
    var less := k - 1.0;
    RealStrictlyMono(less, x, f);
    assert less * f < s;
  }

  lemma EnlargeAbove(a: nat, b: nat, f: nat, min: nat, beta: real, k: nat)
    requires a > 0 && b > 0 && beta > 0.0 && beta * beta == min as real / (a * b) as real
    requires a as real * beta <= k as real * f as real
    ensures a * min <= k * k * (f * f * b)
  {
    var s, t := a as real * beta, k as real * f as real;
    assert s > 0.0;
  }

  lemma EnlargeBelow(a: nat, b: nat, f: nat, min: nat, beta: real, k: nat)
    requires a > 0 && b > 0 && f > 0 && min > 0 && beta > 0.0 && beta * beta == min as real / (a * b) as real
    requires k as real * f as real < a as real * beta
    ensures k * k * (f * f * b) < a * min
  {
    if k > 0 {
      var s, t := a as real * beta, k as real * f as real;
      assert t > 0.0;
      RealStrictlyMono(t * t, s * s, b as real);
    } else {
      assert a * min > 0;
    }
  }

  // ----- the budget

  lemma ProductMono(a: nat, b: nat, c: nat, d: nat)
    requires a <= b && c <= d
    ensures a * c <= b * d
  {
  }

  lemma SquareOfProduct(a: nat, b: nat, u: nat, w: nat, h: nat)
    ensures (a * a * (u * w)) * (b * b * (u * h)) == (a * b * u) * (a * b * u) * (w * h)
  {
    var x, y, p := u * w, u * h, a * b * u;
    assert (a * a * x) * (b * b * y) == (a * a) * (b * b) * (x * y) by {
      FourFactors(a * a, x, b * b, y);
    }
    assert x * y == (u * u) * (w * h) by {
      FourFactors(u, w, u, h);
    }
    assert p * p == (a * b) * (a * b) * (u * u) by {
      FourFactors(a * b, u, a * b, u);
    }
    assert (a * b) * (a * b) == (a * a) * (b * b) by {
      FourFactors(a, b, a, b);
    }
  }

  lemma FourFactors(a: nat, x: nat, b: nat, y: nat)
    ensures (a * x) * (b * y) == (a * b) * (x * y)
  {
    assert (a * x) * (b * y) == a * (x * (b * y));
    assert x * (b * y) == b * (x * y);
    assert a * (b * (x * y)) == (a * b) * (x * y);
  }

  /** Comparing areas by their squares, both scaled by the original area: side bounds `i <= j` and `k <= l`. */
  lemma AreasOrder(i: nat, j: nat, k: nat, l: nat, p: nat, q: nat, area: nat)
    requires i <= j && k <= l && area > 0 && i * k == p * p * area && j * l == q * q * area
    ensures p <= q
  {
    ProductMono(i, j, k, l);
    AtMostFromMul(p * p, q * q, area);
  }

  /** Both sides shrunk without clamping: the result is within the budget. */
  lemma UnclampedFits(h: nat, w: nat, f: nat, max: nat, a: nat, b: nat)
    requires h > 0 && w > 0 && ShrinkSide(h, w, f, max, a) && ShrinkSide(w, h, f, max, b)
    ensures (a * f) * (b * f) <= max
  {
    var u := f * f;
    SquareOfProduct(a, b, u, w, h);
    PositiveProduct(w, h);
    AreasOrder(a * a * (u * w), h * max, b * b * (u * h), w * max, a * b * u, max, w * h);
    FourFactors(a, f, b, f);
  }

  /** An enlarged image reaches the smallest number of pixels. */
  lemma EnlargedReaches(h: nat, w: nat, f: nat, min: nat, a: nat, b: nat)
    requires h > 0 && w > 0 && EnlargeSide(h, w, f, min, a) && EnlargeSide(w, h, f, min, b)
    ensures (a * f) * (b * f) >= min
  {
    var u := f * f;
    SquareOfProduct(a, b, u, w, h);
    PositiveProduct(w, h);
    AreasOrder(h * min, a * a * (u * w), w * min, b * b * (u * h), min, a * b * u, w * h);
    FourFactors(a, f, b, f);
  }

  /** A side is clamped to one unit exactly if shrinking would leave less than that. */
  lemma ClampedIff(a: nat, b: nat, f: nat, max: nat, k: nat)
    requires ShrinkSide(a, b, f, max, k)
    ensures k == 0 <==> a * max < f * f * b
  {
    if k > 0 {
      assert k * k >= 1;
    }
  }

  function AtLeastOne(k: nat): nat {
    if k == 0 then 1 else k
  }

  lemma UnitsFitIff(n: nat, m: nat, u: nat, q: nat)
    requires q * u <= m < (q + 1) * u
    ensures n * u <= m <==> n <= q
  {
    if n <= q {
      MulMono(n, q, u);
    } else {
      MulMono(q + 1, n, u);
    }
  }

  /**
   Clamping the first side to one unit can break the budget. With it clamped the result fits exactly if one square
   unit fits and the other side is short enough; all this a caller can see before the call.
   */
  predicate ClampFits(h: nat, w: nat, f: nat, max: nat)
    requires f > 0
  {
    h * max < f * f * w ==> f * f <= max && w * max < Bound(max, f) * Bound(max, f) * (f * f * h)
  }

  /** One more than the square units that fit. */
  function Bound(max: nat, f: nat): nat
    requires f > 0
  {
    Units(max, f) + 1
  }

  function Units(max: nat, f: nat): nat
    requires f > 0
  {
    PositiveProduct(f, f);
    Quotient(max, f * f)
  }

  /** With one unit on the first side the other one decides. */
  lemma OneUnitFitsIff(h: nat, w: nat, f: nat, max: nat, b: nat)
    requires f > 0 && h > 0 && ShrinkSide(w, h, f, max, b)
    ensures (1 * f) * (AtLeastOne(b) * f) <= max <==>
            f * f <= max && w * max < Bound(max, f) * Bound(max, f) * (f * f * h)
  {
    var unit, n, q := f * f, AtLeastOne(b), Units(max, f);
    PositiveProduct(f, f);
    QuotientBound(max, unit, q);
    FourFactors(1, f, n, f);
    UnitsFitIff(n, max, unit, q);
    UnitsFitIff(1, max, unit, q);
    LargestIff(b, q + 1, w * max, unit * h);
  }

  lemma QuotientBound(m: nat, u: nat, q: nat)
    requires u > 0 && q == Quotient(m, u)
    ensures q * u <= m < (q + 1) * u
  {
    Distribute(q, 1, u);
  }

  /** `b` is the largest number whose square times `s` is at most `v`; it is below `c` exactly if `c` is too large. */
  lemma LargestIff(b: nat, c: nat, v: nat, s: nat)
    requires b * b * s <= v < (b + 1) * (b + 1) * s
    ensures b < c <==> v < c * c * s
  {
    if b < c {
      SquaresMono(b + 1, c, s);
    } else {
      SquaresMono(c, b, s);
    }
  }

  // ----- the function itself

  /** The result: units on both sides, snapped, shrunk or enlarged. */
  ghost predicate Resized(h: nat, w: nat, f: nat, min: nat, max: nat, size: Size)
    requires f > 0
  {
    var sh, sw := SnapUnits(h, f), SnapUnits(w, f);
    if (sh * f) * (sw * f) > max then
      exists a: nat, b: nat :: ShrinkSide(h, w, f, max, a) && ShrinkSide(w, h, f, max, b)
                               && size == Size(AtLeastOne(a) * f, AtLeastOne(b) * f)
    else if (sh * f) * (sw * f) < min then
      exists a: nat, b: nat :: EnlargeSide(h, w, f, min, a) && EnlargeSide(w, h, f, min, b)
                               && size == Size(a * f, b * f)
    else size == Size(sh * f, sw * f)
  }

  /** The result is determined by the input. */
  lemma ResizedIsUnique(h: nat, w: nat, f: nat, min: nat, max: nat, s: Size, t: Size)
    requires Accepts(h, w, f, min, max) && Resized(h, w, f, min, max, s) && Resized(h, w, f, min, max, t)
    ensures s == t
  {
    var snapped := (SnapUnits(h, f) * f) * (SnapUnits(w, f) * f);
    hide SnapUnits;
    if snapped > max {
      var a: nat, b: nat :| ShrinkSide(h, w, f, max, a) && ShrinkSide(w, h, f, max, b)
                            && s == Size(AtLeastOne(a) * f, AtLeastOne(b) * f);
      var c: nat, d: nat :| ShrinkSide(h, w, f, max, c) && ShrinkSide(w, h, f, max, d)
                            && t == Size(AtLeastOne(c) * f, AtLeastOne(d) * f);
      ShrinkIsUnique(h, w, f, max, a, c);
      ShrinkIsUnique(w, h, f, max, b, d);
    } else if snapped < min {
      var a: nat, b: nat :| EnlargeSide(h, w, f, min, a) && EnlargeSide(w, h, f, min, b) && s == Size(a * f, b * f);
      var c: nat, d: nat :| EnlargeSide(h, w, f, min, c) && EnlargeSide(w, h, f, min, d) && t == Size(c * f, d * f);
      EnlargeIsUnique(h, w, f, min, a, c);
      EnlargeIsUnique(w, h, f, min, b, d);
    }
  }

  lemma ShrinkIsUnique(a: nat, b: nat, f: nat, max: nat, k: nat, l: nat)
    requires ShrinkSide(a, b, f, max, k) && ShrinkSide(a, b, f, max, l)
    ensures k == l
  {
    LargestIff(k, l, a * max, f * f * b);
    LargestIff(l, k, a * max, f * f * b);
  }

  lemma EnlargeIsUnique(a: nat, b: nat, f: nat, min: nat, k: nat, l: nat)
    requires EnlargeSide(a, b, f, min, k) && EnlargeSide(a, b, f, min, l)
    ensures k == l
  {
    SmallestIff(k, l, a * min, f * f * b);
    SmallestIff(l, k, a * min, f * f * b);
  }

  /** `b` is the smallest number whose square times `s` reaches `v`; it is at most `c` exactly if `c` reaches it. */
  lemma SmallestIff(b: nat, c: nat, v: nat, s: nat)
    requires b > 0 && (b - 1) * (b - 1) * s < v <= b * b * s
    ensures b <= c <==> v <= c * c * s
  {
    if b <= c {
      SquaresMono(b, c, s);
    } else {
      SquaresMono(c, b - 1, s);
    }
  }

  lemma SquaresMono(a: nat, b: nat, s: nat)
    requires a <= b
    ensures a * a * s <= b * b * s
  {
    ProductMono(a, b, a, b);
    MulMono(a * a, b * b, s);
  }

  method ShrinkBoth(h: nat, w: nat, f: nat, max: nat, sqrt: real -> real) returns (a: nat, b: nat)
    requires h > 0 && w > 0 && f > 0 && max > 0 && IsSqrt(sqrt)
    ensures ShrinkSide(h, w, f, max, a) && ShrinkSide(w, h, f, max, b)
  {
    PositiveProduct(h, w);
    assert h * w == w * h;
    var area, budget := (h * w) as real, max as real;
    var beta := sqrt(area / budget);
    a := ShrinkUnits(h, w, f, max, beta);
    b := ShrinkUnits(w, h, f, max, beta);
  }

  method EnlargeBoth(h: nat, w: nat, f: nat, min: nat, sqrt: real -> real) returns (a: nat, b: nat)
    requires h > 0 && w > 0 && f > 0 && min > 0 && IsSqrt(sqrt)
    ensures EnlargeSide(h, w, f, min, a) && EnlargeSide(w, h, f, min, b)
  {
    PositiveProduct(h, w);
    assert h * w == w * h;
    var area, budget := (h * w) as real, min as real;
    var beta := sqrt(budget / area);
    a := EnlargeUnits(h, w, f, min, beta);
    b := EnlargeUnits(w, h, f, min, beta);
  }

  predicate Accepts(h: nat, w: nat, f: nat, min: nat, max: nat) {
    && h > 0 && w > 0 && f > 0 && 0 < min <= max
    && h <= 200 * w && w <= 200 * h
  }

  /** Both sides and the pixel count are machine sizes. */
  predicate SizeFits(size: Size) {
    size.h <= USIZE_MAX && size.w <= USIZE_MAX && size.h * size.w <= USIZE_MAX
  }

  method SmartResize(h: nat, w: nat, f: nat, min: nat, max: nat, sqrt: real -> real) returns (r: Result)
    requires IsSqrt(sqrt)
    ensures r.Ok? ==> Accepts(h, w, f, min, max) && Resized(h, w, f, min, max, r.size) && SizeFits(r.size)
    ensures Accepts(h, w, f, min, max) ==>
              exists size :: Resized(h, w, f, min, max, size) && (r.Ok? <==> SizeFits(size))
  {
    if h == 0 || w == 0 || f == 0 || min == 0 || max < min {
      return Err;
    }
    var longer, shorter := if h >= w then h else w, if h >= w then w else h;
    if longer > 200 * shorter {
      return Err;
    }
    var sh, sw := SnapUnits(h, f), SnapUnits(w, f);
    var snapped, size := (sh * f) * (sw * f), Size(sh * f, sw * f);
    if snapped > max {
      var a, b := ShrinkBoth(h, w, f, max, sqrt);
      size := Size(AtLeastOne(a) * f, AtLeastOne(b) * f);
    } else if snapped < min {
      var a, b := EnlargeBoth(h, w, f, min, sqrt);
      size := Size(a * f, b * f);
    }
    assert Resized(h, w, f, min, max, size);
    if size.h > USIZE_MAX || size.w > USIZE_MAX || size.h * size.w > USIZE_MAX {
      return Err;
    }
    r := Ok(size);
  }

  lemma PositiveProduct(a: nat, b: nat)
    requires a > 0 && b > 0
    ensures a * b > 0
  {
  }

  /** Both sides are positive multiples of the factor, whatever the branch. */
  lemma ResizedIsAligned(h: nat, w: nat, f: nat, min: nat, max: nat, size: Size) returns (a: nat, b: nat)
    requires Accepts(h, w, f, min, max) && Resized(h, w, f, min, max, size)
    ensures a > 0 && b > 0 && size == Size(a * f, b * f)
  {
    var sh, sw := SnapUnits(h, f), SnapUnits(w, f);
    if (sh * f) * (sw * f) > max {
      var i: nat, j: nat :| ShrinkSide(h, w, f, max, i) && ShrinkSide(w, h, f, max, j)
                            && size == Size(AtLeastOne(i) * f, AtLeastOne(j) * f);
      a, b := AtLeastOne(i), AtLeastOne(j);
    } else if (sh * f) * (sw * f) < min {
      a, b :| EnlargeSide(h, w, f, min, a) && EnlargeSide(w, h, f, min, b) && size == Size(a * f, b * f);
    } else {
      a, b := sh, sw;
      assert sh == 0 || sw == 0 ==> (sh * f) * (sw * f) == 0;
    }
  }

  /** `n` units on side `a` are enough for `min` pixels. */
  predicate ReachesWith(a: nat, b: nat, f: nat, min: nat, n: nat) {
    a * min <= n * n * (f * f * b)
  }

  /** Some number of units reaches the minimum on the first side, and what the budget leaves does on the other. */
  predicate EnlargeFits(h: nat, w: nat, f: nat, min: nat, max: nat)
    requires f > 0
  {
    exists n: nat :: && 0 < n <= Units(max, f) && ReachesWith(h, w, f, min, n)
                     && ReachesWith(w, h, f, min, Quotient(Units(max, f), n))
  }

  lemma EnlargedFitsIff(h: nat, w: nat, f: nat, min: nat, max: nat, a: nat, b: nat)
    requires f > 0 && EnlargeSide(h, w, f, min, a) && EnlargeSide(w, h, f, min, b)
    ensures (a * f) * (b * f) <= max <==> EnlargeFits(h, w, f, min, max)
  {
    var q := Units(max, f);
    AreaInUnits(max, f, a, b);
    assert a > 0 && b > 0;
    hide Units, EnlargeSide, ReachesWith, Quotient;
    if a * b <= q {
      SharesFit(a, b, q);
      ReachesIff(h, w, f, min, a, a);
      ReachesIff(w, h, f, min, b, Quotient(q, a));
    }
    if EnlargeFits(h, w, f, min, max) {
      var n: nat :| && 0 < n <= q && ReachesWith(h, w, f, min, n) && ReachesWith(w, h, f, min, Quotient(q, n));
      ReachesIff(h, w, f, min, a, n);
      ReachesIff(w, h, f, min, b, Quotient(q, n));
      SharesWithin(a, b, n, q);
    }
  }

  lemma ReachesIff(a: nat, b: nat, f: nat, min: nat, k: nat, n: nat)
    requires EnlargeSide(a, b, f, min, k)
    ensures ReachesWith(a, b, f, min, n) <==> k <= n
  {
    SmallestIff(k, n, a * min, f * f * b);
  }

  lemma AreaInUnits(max: nat, f: nat, a: nat, b: nat)
    requires f > 0
    ensures (a * f) * (b * f) <= max <==> a * b <= Units(max, f)
  {
    hide Units;
    UnitsAre(max, f);
    FourFactors(a, f, b, f);
    UnitsFitIff(a * b, max, f * f, Units(max, f));
  }

  lemma SharesWithin(a: nat, b: nat, n: nat, q: nat)
    requires n > 0 && a <= n && b <= Quotient(q, n)
    ensures a * b <= q
  {
    ProductMono(a, n, b, Quotient(q, n));
    assert q == Quotient(q, n) * n + q % n;
  }

  lemma UnitsAre(max: nat, f: nat)
    requires f > 0
    ensures var q := Units(max, f); q * (f * f) <= max < (q + 1) * (f * f)
  {
    PositiveProduct(f, f);
    QuotientBound(max, f * f, Units(max, f));
  }

  /** With `a` on one side, `b` fits into the rest. */
  lemma SharesFit(a: nat, b: nat, q: nat)
    requires a > 0 && b > 0 && a * b <= q
    ensures a <= q && b <= Quotient(q, a)
  {
    MulMono(1, b, a);
    FieldsUnique(a, b * a, b, 0);
    DivMono(b * a, q, a);
  }

  /** What a caller can check before the call: neither clamping nor enlarging breaks the budget. */
  predicate KeepsBudget(h: nat, w: nat, f: nat, min: nat, max: nat)
    requires f > 0
  {
    var snapped := (SnapUnits(h, f) * f) * (SnapUnits(w, f) * f);
    && (snapped > max ==> ClampFits(h, w, f, max) && ClampFits(w, h, f, max))
    && (snapped < min ==> EnlargeFits(h, w, f, min, max))
  }

  /** The largest number of pixels: exactly when the result stays within it, for every accepted image. */
  lemma ResizedFitsIff(h: nat, w: nat, f: nat, min: nat, max: nat, size: Size)
    requires Accepts(h, w, f, min, max) && Resized(h, w, f, min, max, size)
    ensures size.h * size.w <= max <==> KeepsBudget(h, w, f, min, max)
  {
    hide SnapUnits, ClampFits, EnlargeFits;
    var snapped := (SnapUnits(h, f) * f) * (SnapUnits(w, f) * f);
    if snapped > max {
      var a: nat, b: nat :| ShrinkSide(h, w, f, max, a) && ShrinkSide(w, h, f, max, b)
                            && size == Size(AtLeastOne(a) * f, AtLeastOne(b) * f);
      ShrunkFitsIff(h, w, f, max, a, b);
    } else if snapped < min {
      var a: nat, b: nat :| EnlargeSide(h, w, f, min, a) && EnlargeSide(w, h, f, min, b) && size == Size(a * f, b * f);
      EnlargedFitsIff(h, w, f, min, max, a, b);
    }
  }

  lemma ShrunkFitsIff(h: nat, w: nat, f: nat, max: nat, a: nat, b: nat)
    requires h > 0 && w > 0 && f > 0 && ShrinkSide(h, w, f, max, a) && ShrinkSide(w, h, f, max, b)
    ensures (AtLeastOne(a) * f) * (AtLeastOne(b) * f) <= max <==> ClampFits(h, w, f, max) && ClampFits(w, h, f, max)
  {
    hide ShrinkSide;
    ClampedIff(h, w, f, max, a);
    ClampedIff(w, h, f, max, b);
    OneUnitFitsIff(h, w, f, max, b);
    OneUnitFitsIff(w, h, f, max, a);
    assert (AtLeastOne(a) * f) * (AtLeastOne(b) * f) == (AtLeastOne(b) * f) * (AtLeastOne(a) * f);
    if a > 0 && b > 0 {
      UnclampedFits(h, w, f, max, a, b);
    }
  }

  /** The smallest number of pixels is reached unless the image was shrunk. */
  lemma ResizedReachesMinimum(h: nat, w: nat, f: nat, min: nat, max: nat, size: Size)
    requires Accepts(h, w, f, min, max) && Resized(h, w, f, min, max, size)
    requires (SnapUnits(h, f) * f) * (SnapUnits(w, f) * f) <= max
    ensures size.h * size.w >= min
  {
    hide SnapUnits;
    if (SnapUnits(h, f) * f) * (SnapUnits(w, f) * f) < min {
      var a: nat, b: nat :| EnlargeSide(h, w, f, min, a) && EnlargeSide(w, h, f, min, b) && size == Size(a * f, b * f);
      EnlargedReaches(h, w, f, min, a, b);
    }
  }

  /** For example a long strip: it is accepted, shrunk and clamped, and the result is over the budget. */
  lemma ClampExceedsBudget(size: Size)
    ensures Accepts(15, 3000, 28, 1, 1000)
    ensures Resized(15, 3000, 28, 1, 1000, size) ==> size.h * size.w > 1000
  {
    if Resized(15, 3000, 28, 1, 1000, size) {
      assert SnapUnits(15, 28) == 1 && SnapUnits(3000, 28) == 107;
      ResizedFitsIff(15, 3000, 28, 1, 1000, size);
      assert Units(1000, 28) == 1;
      assert !ClampFits(15, 3000, 28, 1000);
    }
  }

  /** And a small square whose smallest and largest pixel count lie between two sizes: it is enlarged past both. */
  lemma EnlargeExceedsBudget(size: Size)
    ensures Accepts(10, 10, 28, 1000, 1000)
    ensures Resized(10, 10, 28, 1000, 1000, size) ==> size.h * size.w > 1000
  {
    if Resized(10, 10, 28, 1000, 1000, size) {
      assert SnapUnits(10, 28) == 0;
      ResizedFitsIff(10, 10, 28, 1000, 1000, size);
      assert Units(1000, 28) == 1;
      assert !ReachesWith(10, 10, 28, 1000, 1);
    }
  }

  // ----- the cap on patches

  /** The pixel budget: cut to the pixels of the allowed patches when downscaling; a cap that overflows is no cap. */
  function Budget(maxPixels: nat, patch: nat, maxPatches: nat, downscale: bool): nat {
    var cap := maxPatches * patch * patch;
    if downscale && cap <= USIZE_MAX && cap < maxPixels then cap else maxPixels
  }

  method CappedBudget(minPixels: nat, maxPixels: nat, patch: nat, maxPatches: nat, downscale: bool)
    returns (min: nat, max: nat)
    requires minPixels <= maxPixels
    ensures max == Budget(maxPixels, patch, maxPatches, downscale) <= maxPixels
    ensures min == if minPixels < max then minPixels else max
    ensures downscale && maxPatches * patch * patch <= USIZE_MAX ==> max <= maxPatches * (patch * patch)
  {
    min, max := minPixels, maxPixels;
    if downscale {
      var cap := maxPatches * patch * patch;
      if cap <= USIZE_MAX {
        if cap < max {
          max := cap;
        }
        if max < min {
          min := max;
        }
      }
    }
  }

  /** An aligned size has as many patches as its pixels make. */
  lemma PatchesIff(a: nat, b: nat, patch: nat, merge: nat, maxPatches: nat, h: nat, w: nat)
    requires patch > 0 && h == a * (patch * merge) && w == b * (patch * merge)
    ensures h / patch == a * merge && w / patch == b * merge
    ensures (h / patch) * (w / patch) <= maxPatches <==> h * w <= maxPatches * (patch * patch)
  {
    MultipleOf(a, patch, merge);
    MultipleOf(b, patch, merge);
    var x, y := a * merge, b * merge;
    assert h == x * patch && w == y * patch;
    FourFactors(x, patch, y, patch);
    if h * w <= maxPatches * (patch * patch) {
      AtMostFromMul(x * y, maxPatches, patch * patch);
    }
    if x * y <= maxPatches {
      MulMono(x * y, maxPatches, patch * patch);
    }
  }

  /** The capped budget admits exactly the aligned sizes within the pixel budget and the allowed patches. */
  lemma CappedSizeFits(a: nat, b: nat, patch: nat, merge: nat, maxPixels: nat, maxPatches: nat, downscale: bool, h: nat,
                       w: nat)
    requires patch > 0 && h == a * (patch * merge) && w == b * (patch * merge)
    ensures h * w <= Budget(maxPixels, patch, maxPatches, downscale) <==>
              && h * w <= maxPixels
              && (downscale && maxPatches * patch * patch <= USIZE_MAX ==> (h / patch) * (w / patch) <= maxPatches)
  {
    PatchesIff(a, b, patch, merge, maxPatches, h, w);
    MulAssoc(maxPatches, patch, patch);
  }

  lemma MultipleOf(a: nat, patch: nat, merge: nat)
    requires patch > 0
    ensures a * (patch * merge) == (a * merge) * patch
    ensures (a * (patch * merge)) / patch == a * merge
  {
    assert patch * merge == merge * patch;
    FieldsUnique(patch, (a * merge) * patch, a * merge, 0);
  }
}
