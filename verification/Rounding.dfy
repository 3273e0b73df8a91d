/**
 Round-to-nearest with ties to even over any strictly increasing table of values.

 `v(c)` is the exact value of code `c`; codes are consecutive, so the parity of a code is
 the parity of its mantissa. The theory is independent of any float format.
 IEEE 754-2019, section 4.3.1, gives the rule.
 */
module Rounding {
  import opened Arithmetic

  type Table = nat -> nat

  ghost predicate Increasing(v: Table) {
    forall c: nat, d: nat :: c < d ==> v(c) < v(d)
  }

  /**
   `c` is the round-to-nearest, ties-to-even result for `x` among the codes `0..=top`:
   no other code is closer, and an equally close one means that `c` is even.
   */
  ghost predicate NearestEven(v: Table, top: nat, x: nat, c: nat) {
    && c <= top
    && forall d: nat :: d <= top && d != c ==>
         || Dist(x, v(c)) < Dist(x, v(d))
         || (Dist(x, v(c)) == Dist(x, v(d)) && c % 2 == 0)
  }

  /** Beating both neighbours is enough to be nearest among all codes. */
  lemma BeatsNeighbours(v: Table, top: nat, x: nat, c: nat)
    requires Increasing(v) && c <= top
    requires c > 0 ==> v(c - 1) + v(c) < 2 * x || (v(c - 1) + v(c) == 2 * x && c % 2 == 0)
    requires c < top ==> 2 * x < v(c) + v(c + 1) || (2 * x == v(c) + v(c + 1) && c % 2 == 0)
    ensures NearestEven(v, top, x, c)
  {
    forall d: nat | d <= top && d != c
      ensures || Dist(x, v(c)) < Dist(x, v(d))
              || (Dist(x, v(c)) == Dist(x, v(d)) && c % 2 == 0)
    {
      if d < c {
        assert v(d) <= v(c - 1) < v(c);
      } else {
        assert v(c) < v(c + 1) <= v(d);
      }
    }
  }

  /**
   The rounding step shared by every conversion: the gap above code `c` is `2 * half` steps of size
   `p`, and `x` is `rem` steps above it; round up past the half, or on it when `c` is odd.
   */
  lemma RoundStep(v: Table, top: nat, x: nat, c: nat, rem: nat, half: nat, p: nat, r: nat)
    requires Increasing(v) && p > 0 && rem < 2 * half
    requires x == v(c) + rem * p && v(c + 1) == v(c) + (2 * half) * p
    requires r == (if rem > half || (rem == half && c % 2 == 1) then c + 1 else c) <= top
    ensures NearestEven(v, top, x, r)
    ensures v(c) <= x < v(c + 1)
  {
    StepSides(v(c), v(c + 1), x, rem, half, p);
    if r == c + 1 {
      assert v(c + 1) < v(c + 2);
    } else if c > 0 {
      assert v(c - 1) < v(c);
    }
    BeatsNeighbours(v, top, x, r);
  }

  /** Which side of the midpoint of `m` and `n` the value `x` is on, by comparing step counts. */
  lemma StepSides(m: nat, n: nat, x: nat, rem: nat, half: nat, p: nat)
    requires p > 0 && rem < 2 * half
    requires x == m + rem * p && n == m + (2 * half) * p
    ensures m <= x < n
    ensures rem > half <==> 2 * x > m + n
    ensures rem == half <==> 2 * x == m + n
  {
    StepsApart(rem, 2 * half, p);
    StepsApart(half, 2 * half, p);
    StepsApart(rem, half, p);
  }

  lemma StepsApart(a: nat, b: nat, p: nat)
    requires p > 0
    ensures b * p - a * p == (b - a) * p
    ensures a < b <==> a * p < b * p
    ensures a == b <==> a * p == b * p
  {
    assert b > a ==> (b - a) * p > 0;
    assert b < a ==> (a - b) * p > 0;
  }

  /** Anything at or above the largest code rounds to it: saturation is nearest rounding. */
  lemma SaturationIsNearest(v: Table, top: nat, x: nat)
    requires Increasing(v) && v(top) <= x
    ensures NearestEven(v, top, x, top)
  {
    if top > 0 {
      assert v(top - 1) < v(top);
    }
    BeatsNeighbours(v, top, x, top);
  }

  /** Rounding in a longer table and then clamping to `top` is rounding with saturation at `top`. */
  lemma ClampedIsNearest(v: Table, top: nat, longer: nat, x: nat, r: nat)
    requires Increasing(v) && top <= longer && NearestEven(v, longer, x, r)
    ensures NearestEven(v, top, x, if r <= top then r else top)
  {
    if r > top {
      assert v(top) < v(r);
      assert Dist(x, v(r)) <= Dist(x, v(top));
      SaturationIsNearest(v, top, x);
    }
  }

  /** Rounding is monotone: a larger exact value never gets a smaller code. In particular it is a function. */
  lemma RoundingIsMonotone(v: Table, top: nat, x: nat, y: nat, c: nat, d: nat)
    requires Increasing(v) && x <= y
    requires NearestEven(v, top, x, c) && NearestEven(v, top, y, d)
    ensures c <= d
  {
    // If d < c, both values sit on the midpoint of the two codes, so both codes are even;
    // but then the code d + 1 between them is closer still.
    SomethingBetween(v, d, c);
  }

  lemma SomethingBetween(v: Table, d: nat, c: nat)
    requires Increasing(v)
    ensures d < c ==> v(d) < v(c)
    ensures d + 1 < c ==> v(d) < v(d + 1) < v(c)
  {
  }

  /** A representable value is rounded to its own code. */
  lemma ExactValuesAreKept(v: Table, top: nat, x: nat, c: nat, d: nat)
    requires Increasing(v) && c <= top && x == v(c) && NearestEven(v, top, x, d)
    ensures c == d
  {
    assert c < d ==> v(c) < v(d);
    assert d < c ==> v(d) < v(c);
  }

  /** The code at or below an in-range value. */
  lemma {:induction false} FloorCode(v: Table, top: nat, x: nat) returns (c: nat)
    requires Increasing(v) && v(0) <= x <= v(top)
    ensures c <= top && v(c) <= x
    ensures c < top ==> x < v(c + 1)
    ensures c == top ==> x == v(top)
  {
    if x == v(top) {
      c := top;
    } else if v(top - 1) <= x {
      c := top - 1;
    } else {
      c := FloorCode(v, top - 1, x);
    }
  }

  /** Nearest rounding inside the range is off by at most half of the gap that the value lies in. */
  lemma HalfGapBound(v: Table, top: nat, x: nat, r: nat) returns (c: nat)
    requires Increasing(v) && v(0) <= x <= v(top) && NearestEven(v, top, x, r)
    ensures v(c) <= x <= v(c + 1) && 2 * Dist(x, v(r)) <= v(c + 1) - v(c)
  {
    c := FloorCode(v, top, x);
    assert Dist(x, v(r)) <= Dist(x, v(c));
    assert v(c) < v(c + 1);
    if c < top {
      assert Dist(x, v(r)) <= Dist(x, v(c + 1));
    }
  }

  /** A magnitude with its sign. */
  function Signed(negative: bool, magnitude: nat): int {
    if negative then 0 - magnitude else magnitude
  }

  /** Rounding magnitudes and keeping signs is monotone over signed values. */
  lemma SignedRoundingIsMonotone(v: Table, top: nat, neg1: bool, x1: nat, c1: nat, neg2: bool, x2: nat, c2: nat)
    requires Increasing(v) && v(0) == 0
    requires NearestEven(v, top, x1, c1) && NearestEven(v, top, x2, c2)
    requires Signed(neg1, x1) <= Signed(neg2, x2)
    ensures Signed(neg1, v(c1)) <= Signed(neg2, v(c2))
  {
    if x1 <= x2 {
      RoundingIsMonotone(v, top, x1, x2, c1, c2);
      AtMost(v, c1, c2);
    }
    if x2 <= x1 {
      RoundingIsMonotone(v, top, x2, x1, c2, c1);
      AtMost(v, c2, c1);
    }
    if !neg1 && neg2 {
      ExactValuesAreKept(v, top, x1, 0, c1);
      ExactValuesAreKept(v, top, x2, 0, c2);
    }
  }

  lemma AtMost(v: Table, c: nat, d: nat)
    requires Increasing(v) && c <= d
    ensures v(c) <= v(d)
  {
    assert c < d ==> v(c) < v(d);
  }

  /** An even top code is reached exactly from the midpoint below it; under that it plays no part. */
  lemma TopCodeThreshold(v: Table, top: nat, x: nat, c: nat)
    requires Increasing(v) && top > 0 && top % 2 == 0 && NearestEven(v, top, x, c)
    ensures c == top <==> 2 * x >= v(top - 1) + v(top)
    ensures c != top ==> NearestEven(v, top - 1, x, c)
  {
    assert v(top - 1) < v(top);
    if c < top {
      AtMost(v, c, top - 1);
      assert Dist(x, v(c)) <= Dist(x, v(top - 1));
    } else {
      assert Dist(x, v(top)) <= Dist(x, v(top - 1));
    }
  }
}
