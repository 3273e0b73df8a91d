/**
 The quantized tensor (fp8.rs, `Fp8Tensor`) in exact arithmetic over an E4M3 codec: one byte an element and one
 scale a block. The parallel form agrees with the simple one.
 */
module Fp8Tensor {
  import opened Arithmetic

  type Code = nat

  /** Rounding to a code, and the value of a code. */
  datatype Codec = Codec(encode: real -> Code, decode: Code -> real)

  datatype Tensor = Tensor(q: seq<Code>, scales: seq<real>, block: nat, n: nat)

  const EMPTY := Tensor([], [], 0, 0)
  const E4M3_MAX: real := 448.0

  function Abs(x: real): real {
    if x < 0.0 then -x else x
  }

  function MaxAbs(w: seq<real>): real {
    if w == [] then 0.0 else
      var m, x := MaxAbs(w[..|w| - 1]), Abs(w[|w| - 1]);
      if x > m then x else m
  }

  function ScaleOf(w: seq<real>): real {
    MaxAbs(w) / E4M3_MAX
  }

  function EncodeAt(c: Codec, x: real, scale: real): Code {
    if scale > 0.0 then c.encode(x / scale) else 0
  }

  function EncodeAll(c: Codec, w: seq<real>, scale: real): (q: seq<Code>)
    ensures |q| == |w|
  {
    seq(|w|, i requires 0 <= i < |w| => EncodeAt(c, w[i], scale))
  }

  // ----- blocks

  /** Codes of the blocks from the front, each with its own scale. */
  function BlockCodes(c: Codec, w: seq<real>, block: nat): (q: seq<Code>)
    requires block > 0
    ensures |q| == |w|
    decreases |w|
  {
    if w == [] then [] else
      var k := Min(block, |w|);
      EncodeAll(c, w[..k], ScaleOf(w[..k])) + BlockCodes(c, w[k..], block)
  }

  function BlockScales(w: seq<real>, block: nat): seq<real>
    requires block > 0
    decreases |w|
  {
    if w == [] then [] else
      var k := Min(block, |w|);
      [ScaleOf(w[..k])] + BlockScales(w[k..], block)
  }

  function QuantizedOf(c: Codec, w: seq<real>, block: nat): Tensor
    requires block > 0
  {
    Tensor(BlockCodes(c, w, block), BlockScales(w, block), block, |w|)
  }

  /** A tensor as the constructors make it: every element has a code, every block a scale. */
  predicate TensorOk(t: Tensor) {
    |t.q| == t.n && (t.n > 0 ==> t.block > 0) && |t.scales| == if t.n == 0 then 0 else DivCeil(t.n, t.block)
  }

  lemma {:induction false} ScaleCount(w: seq<real>, block: nat)
    requires block > 0
    ensures |BlockScales(w, block)| == DivCeil(|w|, block)
    decreases |w|
  {
    if w != [] {
      var k := Min(block, |w|);
      ScaleCount(w[k..], block);
      CeilStep(|w|, block);
    } else {
      SmallDivCeil(0, block);
    }
  }

  lemma QuantizedIsOk(c: Codec, w: seq<real>, block: nat)
    requires block > 0
    ensures TensorOk(QuantizedOf(c, w, block))
  {
    ScaleCount(w, block);
    if w == [] {
      assert BlockScales(w, block) == [];
    }
  }

  lemma BlockStep(c: Codec, w: seq<real>, block: nat, start: nat, end: nat)
    requires block > 0 && start < |w| && end == Min(start + block, |w|)
    ensures BlockCodes(c, w[start..], block) ==
            EncodeAll(c, w[start..end], ScaleOf(w[start..end])) + BlockCodes(c, w[end..], block)
    ensures BlockScales(w[start..], block) == [ScaleOf(w[start..end])] + BlockScales(w[end..], block)
  {
    var rest, k := w[start..], end - start;
    assert k == Min(block, |rest|);
    assert rest[..k] == w[start..end] && rest[k..] == w[end..];
  }

  lemma NoBlocks(c: Codec, w: seq<real>, block: nat)
    requires block > 0 && w == []
    ensures BlockCodes(c, w, block) == [] && BlockScales(w, block) == []
  {
  }

  /** One scale a block of elements. */
  method QuantizeBlock(c: Codec, w: seq<real>, block: nat) returns (t: Tensor)
    ensures t == QuantizedOf(c, w, if block > 0 then block else 1) && TensorOk(t)
  {
    var size := if block > 0 then block else 1;
    hide BlockCodes, BlockScales;
    var q: seq<Code>, scales: seq<real>, start: nat := [], [], 0;
    assert w[0..] == w;
    while start < |w|
      invariant start <= |w| && |q| == start
      invariant BlockCodes(c, w, size) == q + BlockCodes(c, w[start..], size)
      invariant BlockScales(w, size) == scales + BlockScales(w[start..], size)
    {
      var end := Min(start + size, |w|);
      BlockStep(c, w, size, start, end);
      var max := MaxOfBlock(w, start, end);
      var scale := max / E4M3_MAX;
      var codes := EncodeBlock(c, w, start, end, scale);
      q, scales := q + codes, scales + [scale];
      start := end;
    }
    NoBlocks(c, w[start..], size);
    QuantizedIsOk(c, w, size);
    t := Tensor(q, scales, size, |w|);
  }

  method MaxOfBlock(w: seq<real>, start: nat, end: nat) returns (m: real)
    requires start <= end <= |w|
    ensures m == MaxAbs(w[start..end])
  {
    m := 0.0;
    for i := start to end
      invariant m == MaxAbs(w[start..i])
    {
      var x := Abs(w[i]);
      assert w[start..i + 1][..i - start] == w[start..i];
      if x > m {
        m := x;
      }
    }
  }

  method EncodeBlock(c: Codec, w: seq<real>, start: nat, end: nat, scale: real) returns (q: seq<Code>)
    requires start <= end <= |w|
    ensures q == EncodeAll(c, w[start..end], scale)
  {
    q := [];
    for i := start to end
      invariant |q| == i - start && forall k :: 0 <= k < i - start ==> q[k] == EncodeAt(c, w[start + k], scale)
    {
      q := q + [if scale > 0.0 then c.encode(w[i] / scale) else 0];
    }
  }

  /** One scale for the whole tensor; the empty tensor has no block. */
  function QuantizeOf(c: Codec, w: seq<real>): Tensor {
    if w == [] then EMPTY else QuantizedOf(c, w, |w|)
  }

  method Quantize(c: Codec, w: seq<real>) returns (t: Tensor)
    ensures t == QuantizeOf(c, w) && TensorOk(t)
  {
    if w == [] {
      return EMPTY;
    }
    t := QuantizeBlock(c, w, |w|);
  }

  /**
   Quantization in parallel: one scale, the elements in even shares. For every number of threads it is exactly the
   sequential result.
   */
  method QuantizePar(c: Codec, w: seq<real>, threads: nat) returns (t: Tensor)
    requires threads > 0
    ensures t == QuantizeOf(c, w)
  {
    if w == [] {
      return EMPTY;
    }
    hide EncodeAll, BlockCodes, DivCeil, ShareStart;
    var max := MaxOfBlock(w, 0, |w|);
    assert w[0..|w|] == w;
    var scale := max / E4M3_MAX;
    var share := DivCeil(|w|, threads);
    if share == 0 {
      share := 1;
    }
    var q: seq<Code> := [];
    Shares(|w|, 0, threads, share);
    EncodeNone(c, w, scale);
    for k := 0 to threads
      invariant ShareStart(0, share) == 0 && q == EncodeAll(c, w[..Min(ShareStart(k, share), |w|)], scale)
    {
      var start, end := ShareStart(k, share), Min(ShareStart(k, share) + share, |w|);
      Shares(|w|, k, threads, share);
      if start < end {
        var part := EncodeBlock(c, w, start, end, scale);
        EncodeJoins(c, w, start, end, scale);
        q := q + part;
      }
    }
    assert w[..|w|] == w;
    OneBlock(c, w);
    t := Tensor(q, [scale], |w|, |w|);
  }

  function ShareStart(k: nat, share: nat): nat {
    k * share
  }

  /** Consecutive shares meet, and all of them cover the elements. */
  lemma Shares(n: nat, k: nat, threads: nat, share: nat)
    requires threads > 0 && share >= DivCeil(n, threads)
    ensures ShareStart(0, share) == 0 && ShareStart(k + 1, share) == ShareStart(k, share) + share
    ensures ShareStart(threads, share) >= n
  {
    hide DivCeil;
    Distribute(k, 1, share);
    DivCeilCovers(n, threads);
    MulMono(DivCeil(n, threads), share, threads);
  }

  lemma EncodeNone(c: Codec, w: seq<real>, scale: real)
    ensures EncodeAll(c, w[..0], scale) == []
  {
  }

  lemma EncodeJoins(c: Codec, w: seq<real>, start: nat, end: nat, scale: real)
    requires start <= end <= |w|
    ensures EncodeAll(c, w[..start], scale) + EncodeAll(c, w[start..end], scale) == EncodeAll(c, w[..end], scale)
  {
  }

  lemma OneBlock(c: Codec, w: seq<real>)
    requires w != []
    ensures BlockCodes(c, w, |w|) == EncodeAll(c, w, ScaleOf(w)) && BlockScales(w, |w|) == [ScaleOf(w)]
  {
    assert w[..|w|] == w && w[|w|..] == [];
    assert BlockCodes(c, [], |w|) == [] && BlockScales([], |w|) == [];
  }

  // ----- dequantization

  function BlockOf(t: Tensor): nat {
    if t.block > 0 then t.block else 1
  }

  lemma ScaleInside(t: Tensor, i: nat)
    requires TensorOk(t) && i < t.n
    ensures Quotient(i, BlockOf(t)) < |t.scales|
  {
    BlockInside(i, t.n, t.block);
  }

  function ValueAt(c: Codec, t: Tensor, i: nat): real
    requires TensorOk(t) && i < t.n
  {
    ScaleInside(t, i);
    Scale(c.decode(t.q[i]), t.scales[Quotient(i, BlockOf(t))])
  }

  function Scale(v: real, s: real): real {
    v * s
  }

  function DequantizedOf(c: Codec, t: Tensor): (v: seq<real>)
    requires TensorOk(t)
    ensures |v| == t.n
  {
    seq(t.n, i requires 0 <= i < t.n => ValueAt(c, t, i))
  }

  method Dequantize(c: Codec, t: Tensor) returns (v: seq<real>)
    requires TensorOk(t)
    ensures v == DequantizedOf(c, t)
  {
    v := [];
    for i := 0 to |t.q|
      invariant |v| == i && forall k :: 0 <= k < i ==> v[k] == ValueAt(c, t, k)
    {
      ScaleInside(t, i);
      var s := t.scales[i / BlockOf(t)];
      v := v + [c.decode(t.q[i]) * s];
    }
  }

  // ----- the error of a round trip

  /** The codec's rounding error, as established for the E4M3 format. */
  ghost predicate CodecOk(c: Codec) {
    forall y: real :: RoundsWell(c, y)
  }

  predicate RoundsWell(c: Codec, y: real) {
    Abs(y) <= E4M3_MAX ==> Abs(c.decode(c.encode(y)) - y) <= Larger(Abs(y) / 16.0, 1.0 / 1024.0)
  }

  /** Off by at most a sixteenth of the value or 2^-10 of the scale. */
  predicate Near(v: real, x: real, s: real) {
    Abs(v - x) <= Larger(Abs(x) / 16.0, s / 1024.0)
  }

  function Larger(a: real, b: real): real {
    if a >= b then a else b
  }

  lemma {:induction false} MaxAbsBounds(w: seq<real>, i: nat)
    requires i < |w|
    ensures Abs(w[i]) <= MaxAbs(w)
  {
    if i < |w| - 1 {
      MaxAbsBounds(w[..|w| - 1], i);
    }
  }

  /** One element under its block's scale: its error is bounded by a sixteenth of itself or a part of the scale. */
  lemma ElementError(c: Codec, x: real, s: real)
    requires CodecOk(c) && s >= 0.0 && Abs(x) <= s * E4M3_MAX
    ensures Near(Scale(c.decode(EncodeAt(c, x, s)), s), x, s)
  {
    hide Near, Larger;
    if s > 0.0 {
      var y := x / s;
      assert y * s == x;
      Scaled(y, x, s);
      assert RoundsWell(c, y);
      ScaledError(c.decode(c.encode(y)), y, x, s);
    } else {
      assert s == 0.0 && x == 0.0;
      ZeroIsExact(c.decode(0));
    }
  }

  lemma ZeroIsExact(v: real)
    ensures Near(Scale(v, 0.0), 0.0, 0.0)
  {
    assert v * 0.0 == 0.0;
  }

  lemma Scaled(y: real, x: real, s: real)
    requires s > 0.0 && y * s == x && Abs(x) <= s * E4M3_MAX
    ensures Abs(y) <= E4M3_MAX && Abs(y) * s == Abs(x)
  {
    if Abs(y) > E4M3_MAX {
      RealStrictlyMono(E4M3_MAX, Abs(y), s);
    }
  }

  lemma ScaledError(v: real, y: real, x: real, s: real)
    requires s > 0.0 && y * s == x && Abs(y) * s == Abs(x)
    requires Abs(v - y) <= Larger(Abs(y) / 16.0, 1.0 / 1024.0)
    ensures Near(Scale(v, s), x, s)
  {
    hide Larger, Abs;
    var e, ay := v - y, Abs(y);
    var bound, scaled := Larger(ay / 16.0, 1.0 / 1024.0), v * s;
    var es := e * s;
    assert scaled - x == es;
    AbsScaled(e, s);
    BoundScaled(ay, Abs(x), s);
    var right := Larger(Abs(x) / 16.0, s / 1024.0);
  }

  lemma AbsScaled(e: real, s: real)
    requires s > 0.0
    ensures Abs(e * s) == Abs(e) * s
  {
    if e < 0.0 {
      RealStrictlyMono(e, 0.0, s);
      assert (-e) * s == -(e * s);
    }
  }

  lemma BoundScaled(y: real, x: real, s: real)
    requires s > 0.0 && y * s == x
    ensures Larger(y / 16.0, 1.0 / 1024.0) * s == Larger(x / 16.0, s / 1024.0)
  {
    var p, q, r, t := y / 16.0, 1.0 / 1024.0, x / 16.0, s / 1024.0;
    assert p * s == r && q * s == t;
    if p >= q {
    } else {
      RealStrictlyMono(p, q, s);
    }
  }

  /** The scale of the block that holds element `i`. */
  function BlockScaleAt(w: seq<real>, block: nat, i: nat): real
    requires block > 0 && i < |w|
    decreases |w|
  {
    var k := Min(block, |w|);
    if i < k then ScaleOf(w[..k]) else BlockScaleAt(w[k..], block, i - k)
  }

  lemma FirstOrLater(i: nat, block: nat)
    requires block > 0
    ensures i < block ==> Quotient(i, block) == 0
    ensures i >= block ==> Quotient(i, block) == 1 + Quotient(i - block, block)
  {
    if i < block {
      FieldsUnique(block, i, 0, i);
    } else {
      AddMultiple(i - block, 1, block);
    }
  }

  lemma {:induction false} ScaleAtIs(w: seq<real>, block: nat, i: nat)
    requires block > 0 && i < |w|
    ensures Quotient(i, block) < |BlockScales(w, block)|
    ensures BlockScales(w, block)[Quotient(i, block)] == BlockScaleAt(w, block, i)
    decreases |w|
  {
    var k := Min(block, |w|);
    FirstOrLater(i, block);
    hide Quotient, ScaleOf;
    if i >= k {
      ScaleAtIs(w[k..], block, i - k);
    }
  }

  /** Every element comes back as its code under the scale of its block, which covers it. */
  lemma RoundTripIs(c: Codec, w: seq<real>, block: nat, i: nat)
    requires block > 0 && i < |w|
    ensures TensorOk(QuantizedOf(c, w, block))
    ensures var s := BlockScaleAt(w, block, i);
            && s >= 0.0 && Abs(w[i]) <= s * E4M3_MAX
            && ValueAt(c, QuantizedOf(c, w, block), i) == Scale(c.decode(EncodeAt(c, w[i], s)), s)
  {
    hide BlockCodes, BlockScales, BlockScaleAt, DivCeil, EncodeAt, Scale;
    QuantizedIsOk(c, w, block);
    ScaleAtIs(w, block, i);
    CodeIs(c, w, block, i);
  }

  lemma {:induction false} CodeIs(c: Codec, w: seq<real>, block: nat, i: nat)
    requires block > 0 && i < |w|
    ensures var s := BlockScaleAt(w, block, i);
            BlockCodes(c, w, block)[i] == EncodeAt(c, w[i], s) && s >= 0.0 && Abs(w[i]) <= s * E4M3_MAX
    decreases |w|
  {
    hide EncodeAt;
    var k := Min(block, |w|);
    var head := EncodeAll(c, w[..k], ScaleOf(w[..k]));
    assert BlockCodes(c, w, block) == head + BlockCodes(c, w[k..], block);
    if i < k {
      MaxAbsBounds(w[..k], i);
      assert head[i] == EncodeAt(c, w[..k][i], ScaleOf(w[..k]));
    } else {
      CodeIs(c, w[k..], block, i - k);
      assert BlockCodes(c, w, block)[i] == BlockCodes(c, w[k..], block)[i - k];
    }
  }

  lemma {:induction false} LargestAt(w: seq<real>) returns (j: nat)
    requires w != []
    ensures j < |w| && Abs(w[j]) == MaxAbs(w) >= 0.0
  {
    var n := |w| - 1;
    if n == 0 {
      j := 0;
    } else {
      j := LargestAt(w[..n]);
      if Abs(w[n]) > MaxAbs(w[..n]) {
        j := n;
      }
    }
  }

  /** The block of an element holds one whose magnitude is 448 times the scale. */
  lemma {:induction false} LargestOfBlock(w: seq<real>, block: nat, i: nat) returns (j: nat)
    requires block > 0 && i < |w|
    ensures j < |w| && Quotient(j, block) == Quotient(i, block) && Abs(w[j]) == BlockScaleAt(w, block, i) * E4M3_MAX
    decreases |w|
  {
    var k := Min(block, |w|);
    FirstOrLater(i, block);
    if i < k {
      j := LargestAt(w[..k]);
      FirstOrLater(j, block);
      assert ScaleOf(w[..k]) * E4M3_MAX == MaxAbs(w[..k]);
    } else {
      j := LargestOfBlock(w[k..], block, i - k);
      j := j + k;
      FirstOrLater(j, block);
    }
  }

  /**
   What quantizing computes, element by element: the elements of a block share a scale, which is the largest
   magnitude among them over 448, and a code is that of the element over its scale.
   */
  lemma ElementIs(c: Codec, w: seq<real>, block: nat, i: nat)
    requires block > 0 && i < |w|
    ensures var t := QuantizedOf(c, w, block);
            && t.n == |t.q| == |w| && t.block == block && i / block < |t.scales|
            && var scale := t.scales[i / block];
               && scale >= 0.0
               && t.q[i] == (if scale > 0.0 then c.encode(w[i] / scale) else 0)
               && (exists j :: 0 <= j < |w| && j / block == i / block && Abs(w[j]) == scale * 448.0)
               && (forall j :: 0 <= j < |w| && j / block == i / block ==> Abs(w[j]) <= scale * 448.0)
  {
    hide BlockCodes, BlockScales, BlockScaleAt, DivCeil;
    QuantizedIsOk(c, w, block);
    BlockInside(i, |w|, block);
    ScaleAtIs(w, block, i);
    CodeIs(c, w, block, i);
    var j := LargestOfBlock(w, block, i);
    forall j: nat | j < |w| && j / block == i / block
      ensures Abs(w[j]) <= BlockScaleAt(w, block, i) * E4M3_MAX
    {
      ScaleAtIs(w, block, j);
      CodeIs(c, w, block, j);
    }
  }
}
